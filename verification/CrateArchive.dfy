/** Reading the files of a crate archive in scripts/publish_release_crate.py. */
module CrateArchive {
  import opened Results
  import opened Archives
  import opened Text

  /** Why an archive is refused. */
  datatype Error = UnsafePath | IrregularOrDuplicate | TooLarge | MalformedSource | OtherSource | DirtySource

  const MAX_FILES := 50_000
  const MAX_BYTES := 100_000_000

  // ----- member names

  /** The parts of a relative path as pathlib reads them: empty parts and dots are dropped. */
  function Parts(pieces: seq<string>): seq<string> {
    if pieces == [] then []
    else (if pieces[0] == "" || pieces[0] == "." then [] else [pieces[0]]) + Parts(pieces[1..])
  }

  /** The text of a relative path as pathlib prints it. */
  function PathText(parts: seq<string>): string {
    if parts == [] then "." else Join("/", parts)
  }

  /** The check on the name of a member. */
  predicate SafeName(prefix: string, name: string) {
    var parts := Parts(Split(name, '/'));
    && !("/" <= name)
    && ".." !in parts
    && prefix <= name
    && PathText(parts) == StripSlashes(name)
  }

  // ----- sums over members

  function Sum(members: seq<Member>, f: Member -> nat): nat {
    if members == [] then 0 else f(members[0]) + Sum(members[1..], f)
  }

  function Bytes(): Member -> nat {
    (m: Member) => if m.kind == Directory then 0 else m.size
  }

  function Entries(): Member -> nat {
    (m: Member) => if m.kind == Directory then 0 else 1
  }

  function Named(name: string): Member -> nat {
    (m: Member) => if m.kind != Directory && m.name == name then 1 else 0
  }

  /** What the loop accepts, in any order: safe names, regular files, no name twice, and both limits kept. */
  ghost predicate Acceptable(prefix: string, members: seq<Member>) {
    && (forall m :: m in members ==> SafeName(prefix, m.name) && m.kind != Other)
    && (forall m :: m in members ==> Sum(members, Named(m.name)) <= 1)
    && Sum(members, Bytes()) <= MAX_BYTES
    && Sum(members, Entries()) <= MAX_FILES
  }

  /** The contents by name. */
  function FilesOf(members: seq<Member>): map<string, string> {
    if members == [] then map[]
    else
      var last := members[|members| - 1];
      var files := FilesOf(members[..|members| - 1]);
      if last.kind == Directory then files else files[last.name := last.content]
  }

  lemma {:induction false} SumAppend(a: seq<Member>, b: seq<Member>, f: Member -> nat)
    ensures Sum(a + b, f) == Sum(a, f) + Sum(b, f)
  {
    if a == [] {
      assert a + b == b;
    } else {
      assert (a + b)[1..] == a[1..] + b;
      SumAppend(a[1..], b, f);
    }
  }

  /** A sum does not depend on the order of the members. */
  lemma {:induction false} SumPermuted(a: seq<Member>, b: seq<Member>, f: Member -> nat)
    requires multiset(a) == multiset(b)
    ensures Sum(a, f) == Sum(b, f)
  {
    if a == [] {
      assert |multiset(a)| == |a| && |multiset(b)| == |b|;
    } else {
      assert a[0] in multiset(b);
      var i :| 0 <= i < |b| && b[i] == a[0];
      WithoutOne(a, b, i, b[..i] + b[i + 1..]);
      SumPermuted(a[1..], b[..i] + b[i + 1..], f);
      SumAppend(b[..i], b[i + 1..], f);
      assert b == b[..i] + ([b[i]] + b[i + 1..]);
      SumAppend(b[..i], [b[i]] + b[i + 1..], f);
    }
  }

  lemma Remove<T>(s: seq<T>, i: nat, rest: seq<T>)
    requires i < |s| && rest == s[..i] + s[i + 1..]
    ensures multiset(s) == multiset(rest) + multiset{s[i]}
  {
    assert s == s[..i] + [s[i]] + s[i + 1..];
  }

  lemma SameWithoutOne<T>(a: multiset<T>, b: multiset<T>, x: T)
    requires a + multiset{x} == b + multiset{x}
    ensures a == b
  {
    assert a == a + multiset{x} - multiset{x};
    assert b == b + multiset{x} - multiset{x};
  }

  lemma WithoutOne<T>(a: seq<T>, b: seq<T>, i: nat, rest: seq<T>)
    requires a != [] && i < |b| && b[i] == a[0] && multiset(a) == multiset(b) && rest == b[..i] + b[i + 1..]
    ensures multiset(a[1..]) == multiset(rest)
  {
    var tail := a[1..];
    Remove(a, 0, tail);
    Remove(b, i, rest);
    SameWithoutOne(multiset(tail), multiset(rest), a[0]);
  }

  lemma {:induction false} FilesOfHas(members: seq<Member>, name: string)
    ensures name in FilesOf(members) <==> exists m :: m in members && m.kind != Directory && m.name == name
  {
    if members != [] {
      var n := |members| - 1;
      FilesOfHas(members[..n], name);
      assert forall m :: m in members <==> m in members[..n] || m == members[n];
    }
  }

  lemma {:induction false} NamedOnce(members: seq<Member>, m: Member)
    requires m in members && m.kind != Directory
    ensures Sum(members, Named(m.name)) >= 1
  {
    if members[0] != m {
      NamedOnce(members[1..], m);
    }
  }

  /** With no name twice, every file is found under its name. */
  lemma {:induction false} FilesOfGets(members: seq<Member>, m: Member)
    requires m in members && m.kind != Directory && Sum(members, Named(m.name)) <= 1
    ensures m.name in FilesOf(members) && FilesOf(members)[m.name] == m.content
  {
    var n := |members| - 1;
    assert members == members[..n] + [members[n]];
    SumAppend(members[..n], [members[n]], Named(m.name));
    assert Sum([members[n]], Named(m.name)) == Named(m.name)(members[n]);
    if m in members[..n] {
      NamedOnce(members[..n], m);
      FilesOfGets(members[..n], m);
    }
  }

  /** One entry for every member that is not a directory. */
  lemma {:induction false} FilesOfSize(members: seq<Member>)
    requires forall m :: m in members ==> Sum(members, Named(m.name)) <= 1
    ensures |FilesOf(members)| == Sum(members, Entries())
  {
    if members != [] {
      var n := |members| - 1;
      var last := members[n];
      assert members == members[..n] + [last];
      SumAppend(members[..n], [last], Entries());
      assert Sum([last], Entries()) == Entries()(last);
      forall m | m in members[..n]
        ensures Sum(members[..n], Named(m.name)) <= 1
      {
        SumAppend(members[..n], [last], Named(m.name));
      }
      FilesOfSize(members[..n]);
      if last.kind != Directory {
        FilesOfHas(members[..n], last.name);
        SumAppend(members[..n], [last], Named(last.name));
        assert Sum([last], Named(last.name)) == 1;
        if last.name in FilesOf(members[..n]) {
          var m :| m in members[..n] && m.kind != Directory && m.name == last.name;
          NamedOnce(members[..n], m);
        }
      }
    }
  }

  /** Acceptance and contents do not depend on the order of the members. */
  lemma OrderDoesNotMatter(prefix: string, a: seq<Member>, b: seq<Member>)
    requires multiset(a) == multiset(b)
    ensures Acceptable(prefix, a) <==> Acceptable(prefix, b)
    ensures Acceptable(prefix, a) ==> FilesOf(a) == FilesOf(b)
  {
    if Acceptable(prefix, a) {
      SameAcceptance(prefix, a, b);
      SameFiles(a, b);
    } else if Acceptable(prefix, b) {
      SameAcceptance(prefix, b, a);
    }
  }

  lemma SameMembers(a: seq<Member>, b: seq<Member>, m: Member)
    requires multiset(a) == multiset(b) && m in a
    ensures m in b
  {
    assert m in multiset(b);
  }

  lemma SameAcceptance(prefix: string, a: seq<Member>, b: seq<Member>)
    requires multiset(a) == multiset(b) && Acceptable(prefix, a)
    ensures Acceptable(prefix, b)
  {
    hide SafeName, Sum;
    forall m | m in b
      ensures m in a && Sum(b, Named(m.name)) <= 1
    {
      SameMembers(b, a, m);
      SumPermuted(a, b, Named(m.name));
    }
    SumPermuted(a, b, Bytes());
    SumPermuted(a, b, Entries());
  }

  lemma SameFiles(a: seq<Member>, b: seq<Member>)
    requires multiset(a) == multiset(b)
    requires forall m :: m in a ==> Sum(a, Named(m.name)) <= 1
    ensures FilesOf(a) == FilesOf(b)
  {
    hide FilesOf, Sum;
    forall m | m in a && m.kind != Directory
      ensures m.name in FilesOf(a) && m.name in FilesOf(b) && FilesOf(a)[m.name] == FilesOf(b)[m.name]
    {
      SameMembers(a, b, m);
      SumPermuted(a, b, Named(m.name));
      FilesOfGets(a, m);
      FilesOfGets(b, m);
    }
    forall name
      ensures name in FilesOf(a) <==> name in FilesOf(b)
      ensures name in FilesOf(a) ==> FilesOf(a)[name] == FilesOf(b)[name]
    {
      FilesOfHas(a, name);
      FilesOfHas(b, name);
      if name in FilesOf(b) {
        var m :| m in b && m.kind != Directory && m.name == name;
        SameMembers(b, a, m);
      }
    }
  }

  // ----- reading the archive

  /** A loop that has read some members acceptably stops for good at the first bad one. */
  lemma PrefixAcceptable(prefix: string, members: seq<Member>, n: nat)
    requires n <= |members| && Acceptable(prefix, members)
    ensures Acceptable(prefix, members[..n])
  {
    hide SafeName, Sum;
    assert members == members[..n] + members[n..];
    SumAppend(members[..n], members[n..], Bytes());
    SumAppend(members[..n], members[n..], Entries());
    forall m | m in members[..n]
      ensures Sum(members[..n], Named(m.name)) <= 1
    {
      SumAppend(members[..n], members[n..], Named(m.name));
    }
  }

  /** The member that one more step of the loop accepts. */
  ghost predicate Admits(prefix: string, done: seq<Member>, next: Member) {
    && SafeName(prefix, next.name)
    && (next.kind != Directory ==>
          && next.kind == File
          && next.name !in FilesOf(done)
          && Sum(done, Bytes()) + next.size <= MAX_BYTES
          && Sum(done, Entries()) < MAX_FILES)
  }

  lemma StepAcceptable(prefix: string, done: seq<Member>, next: Member)
    requires Acceptable(prefix, done)
    ensures Acceptable(prefix, done + [next]) <==> Admits(prefix, done, next)
  {
    hide SafeName, FilesOf;
    SumAppend(done, [next], Bytes());
    SumAppend(done, [next], Entries());
    assert Sum([next], Bytes()) == Bytes()(next) && Sum([next], Entries()) == Entries()(next);
    forall name
      ensures Sum(done + [next], Named(name)) == Sum(done, Named(name)) + Named(name)(next)
    {
      SumAppend(done, [next], Named(name));
      assert Sum([next], Named(name)) == Named(name)(next);
    }
    FilesOfHas(done, next.name);
    NamedOrNot(done, next.name);
    assert next in done + [next];
    if Admits(prefix, done, next) {
      forall m | m in done + [next]
        ensures Sum(done + [next], Named(m.name)) <= 1
      {
        if m.name == next.name && next.kind == Directory && Sum(done, Named(next.name)) > 0 {
          var other :| other in done && other.kind != Directory && other.name == next.name;
        }
      }
    }
  }

  lemma {:induction false} NamedOrNot(members: seq<Member>, name: string)
    ensures Sum(members, Named(name)) == 0 <==> !exists m :: m in members && m.kind != Directory && m.name == name
  {
    if members != [] {
      NamedOrNot(members[1..], name);
      assert forall m :: m in members <==> m == members[0] || m in members[1..];
    }
  }

  lemma RefusedStays(prefix: string, members: seq<Member>, i: nat)
    requires i < |members| && Acceptable(prefix, members[..i]) && !Admits(prefix, members[..i], members[i])
    ensures !Acceptable(prefix, members)
  {
    hide Acceptable, Admits;
    assert members[..i + 1] == members[..i] + [members[i]];
    StepAcceptable(prefix, members[..i], members[i]);
    if Acceptable(prefix, members) {
      PrefixAcceptable(prefix, members, i + 1);
    }
  }

  /** The loop over the members: it succeeds exactly on acceptable archives, with one entry a file. */
  method ReadMembers(prefix: string, members: seq<Member>) returns (r: Result<map<string, string>, Error>)
    ensures r.Ok? <==> Acceptable(prefix, members)
    ensures r.Ok? ==> r.value == FilesOf(members) && |r.value| == Sum(members, Entries())
  {
    hide SafeName, Acceptable, FilesOf, Sum;
    var files: map<string, string>, size := map[], 0;
    NothingRead(prefix);
    assert members[..0] == [];
    for i := 0 to |members|
      invariant Acceptable(prefix, members[..i])
      invariant files == FilesOf(members[..i])
      invariant size == Sum(members[..i], Bytes())
      invariant |files| == Sum(members[..i], Entries())
    {
      var m := members[i];
      ghost var done := members[..i];
      assert members[..i + 1] == done + [m];
      StepAcceptable(prefix, done, m);
      SumAppend(done, [m], Bytes());
      FilesOfSteps(done, m);
      if !SafeName(prefix, m.name) {
        RefusedStays(prefix, members, i);
        return Err(UnsafePath);
      }
      if m.kind != Directory {
        if m.kind != File || m.name in files {
          RefusedStays(prefix, members, i);
          return Err(IrregularOrDuplicate);
        }
        size := size + m.size;
        if size > MAX_BYTES || |files| >= MAX_FILES {
          RefusedStays(prefix, members, i);
          return Err(TooLarge);
        }
        files := files[m.name := m.content];
      }
      AcceptableSize(prefix, members[..i + 1]);
    }
    assert members[..|members|] == members;
    return Ok(files);
  }

  lemma NothingRead(prefix: string)
    ensures Acceptable(prefix, []) && FilesOf([]) == map[]
    ensures forall f :: Sum([], f) == 0
  {
  }

  lemma AcceptableSize(prefix: string, members: seq<Member>)
    requires Acceptable(prefix, members)
    ensures |FilesOf(members)| == Sum(members, Entries())
  {
    hide SafeName, Sum, FilesOf;
    FilesOfSize(members);
  }

  lemma FilesOfSteps(done: seq<Member>, next: Member)
    ensures FilesOf(done + [next]) == if next.kind == Directory then FilesOf(done) else FilesOf(done)[next.name := next.content]
    ensures Sum([next], Bytes()) == Bytes()(next)
  {
  }

  // ----- the recorded source

  /** A flag that may be absent, false, or anything else. */
  datatype Flag = Missing | False | Anything

  /** What .cargo_vcs_info.json records. */
  datatype Source = Source(revision: string, path: Option<string>, dirty: Flag)

  /** The recorded source is the clean commit that is released. */
  predicate SourceMatches(source: Source, revision: string, path: string) {
    source.revision == revision && source.path == Some(path) && source.dirty != Anything
  }

  /** An archive that passes every check. */
  ghost predicate Sound(members: seq<Member>, prefix: string, revision: string, path: string,
                        parse: string -> Option<Source>) {
    && Acceptable(prefix, members)
    && prefix + ".cargo_vcs_info.json" in FilesOf(members)
    && var source := parse(FilesOf(members)[prefix + ".cargo_vcs_info.json"]);
       source.Some? && SourceMatches(source.value, revision, path)
  }

  method ArchiveFiles(members: seq<Member>, prefix: string, revision: string, path: string,
                      parse: string -> Option<Source>) returns (r: Result<map<string, string>, Error>)
    ensures r.Ok? <==> Sound(members, prefix, revision, path, parse)
    ensures r.Ok? ==> r.value == FilesOf(members)
  {
    var read := ReadMembers(prefix, members);
    if read.Err? {
      return read;
    }
    var name := prefix + ".cargo_vcs_info.json";
    if name !in read.value || parse(read.value[name]).None? {
      return Err(MalformedSource);
    }
    var source := parse(read.value[name]).value;
    if source.revision != revision || source.path != Some(path) {
      return Err(OtherSource);
    }
    if source.dirty == Anything {
      return Err(DirtySource);
    }
    return read;
  }

  /** The whole result is independent of the order of the members. */
  lemma ArchiveOrderDoesNotMatter(a: seq<Member>, b: seq<Member>, prefix: string, revision: string, path: string,
                                  parse: string -> Option<Source>)
    requires multiset(a) == multiset(b)
    ensures Sound(a, prefix, revision, path, parse) <==> Sound(b, prefix, revision, path, parse)
    ensures Sound(a, prefix, revision, path, parse) ==> FilesOf(a) == FilesOf(b)
  {
    hide Acceptable;
    OrderDoesNotMatter(prefix, a, b);
    OrderDoesNotMatter(prefix, b, a);
  }

  // ----- which names are safe

  /** Nothing is dropped exactly when no piece is empty or a dot. */
  lemma {:induction false} NothingDropped(pieces: seq<string>)
    ensures |Parts(pieces)| <= |pieces|
    ensures |Parts(pieces)| == |pieces| <==> "" !in pieces && "." !in pieces
    ensures |Parts(pieces)| == |pieces| ==> Parts(pieces) == pieces
    ensures forall p :: p in Parts(pieces) <==> p in pieces && p != "" && p != "."
  {
    if pieces != [] {
      NothingDropped(pieces[1..]);
      assert forall p :: p in pieces <==> p == pieces[0] || p in pieces[1..];
      assert pieces == [pieces[0]] + pieces[1..];
    }
  }

  lemma {:induction false} PartsAppend(a: seq<string>, b: seq<string>)
    ensures Parts(a + b) == Parts(a) + Parts(b)
  {
    if a == [] {
      assert a + b == b;
    } else {
      assert (a + b)[1..] == a[1..] + b;
      PartsAppend(a[1..], b);
    }
  }

  lemma {:induction false} SplitAtEnd(s: string, separator: char)
    ensures Split(s + [separator], separator) == Split(s, separator) + [""]
  {
    if s == "" {
      assert (s + [separator])[1..] == "";
    } else {
      assert (s + [separator])[1..] == s[1..] + [separator];
      SplitAtEnd(s[1..], separator);
    }
  }

  /** Trailing slashes add no parts. */
  lemma {:induction false} SlashesAddNoParts(name: string)
    ensures Parts(Split(name, '/')) == Parts(Split(StripSlashes(name), '/'))
  {
    if name != "" && name[|name| - 1] == '/' {
      var rest := name[..|name| - 1];
      SlashesAddNoParts(rest);
      assert name == rest + ['/'];
      SplitAtEnd(rest, '/');
      PartsAppend(Split(rest, '/'), [""]);
      assert Parts([""]) == [] + Parts([]);
    }
  }

  lemma {:induction false} StripSlashesPrefix(name: string)
    ensures StripSlashes(name) <= name
  {
    if name != "" && name[|name| - 1] == '/' {
      StripSlashesPrefix(name[..|name| - 1]);
    }
  }

  /** A safe name is a normal path below the prefix: no piece is empty, a dot or two dots.  The prefix is that
      of a package directory, so it does not start with a dot or a slash. */
  lemma SafeNames(prefix: string, name: string)
    requires prefix != "" && prefix[0] != '.' && prefix[0] != '/'
    ensures SafeName(prefix, name) <==>
              prefix <= name && var pieces := Split(StripSlashes(name), '/'); "" !in pieces && "." !in pieces && ".." !in pieces
  {
    var stripped := StripSlashes(name);
    var pieces := Split(stripped, '/');
    SlashesAddNoParts(name);
    NothingDropped(pieces);
    JoinSplit(stripped, '/');
    StripSlashesPrefix(name);
    if prefix <= name {
      assert name[0] == prefix[0];
      if PathText(Parts(pieces)) == stripped {
        PrintedInFull(pieces, stripped);
      }
    }
  }

  lemma PrintedInFull(pieces: seq<string>, text: string)
    requires pieces == Split(text, '/') && PathText(Parts(pieces)) == text
    requires text != "."
    ensures |Parts(pieces)| == |pieces|
  {
    NothingDropped(pieces);
    JoinSplit(text, '/');
    assert NoneContains(Parts(pieces), '/') by {
      forall i | 0 <= i < |Parts(pieces)|
        ensures '/' !in Parts(pieces)[i]
      {
        var p := Parts(pieces)[i];
        assert p in pieces;
        var j :| 0 <= j < |pieces| && pieces[j] == p;
      }
    }
    SplitJoin(Parts(pieces), '/');
  }
}
