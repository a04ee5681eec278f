/** What the unpack loop leaves in an empty output root, member by member and without its state: the
    greedy selection, and exactly when the archive is aborted instead. */
module UnpackSelection {
  import opened Wrappers
  import opened CentralDirectory
  import opened Unpack

  /** No earlier member has the same case-folded path. */
  ghost predicate FirstClaim(config: Config, members: seq<Member>, i: nat)
    requires i < |members|
  {
    forall j :: 0 <= j < i ==> config.fold(members[j].path) != config.fold(members[i].path)
  }

  ghost predicate MetadataOk(config: Config, m: Member) {
    m.declared <= config.limit.maxSingle && |m.path| <= config.limit.maxDepth
  }

  /** The member's path runs through an earlier file. */
  ghost predicate UnderFile(config: Config, members: seq<Member>, i: nat)
    requires i < |members|
    decreases i, 2
  {
    exists a :: 0 <= a < i && Kept(config, members, a) && ProperPrefix(members[a].path, members[i].path)
  }

  /** The member gets as far as creating the directories above it. */
  ghost predicate Reaches(config: Config, members: seq<Member>, i: nat)
    requires i < |members|
    decreases i, 3
  {
    && FirstClaim(config, members, i) && MetadataOk(config, members[i]) && config.pathOk(members[i].path)
    && !UnderFile(config, members, i)
  }

  /** The greedy selection: a member that reaches its copy, is readable, and fits the single-file
      limit and what earlier selected members leave of the total. */
  ghost predicate Kept(config: Config, members: seq<Member>, i: nat)
    requires i < |members|
    decreases i, 4
  {
    Reaches(config, members, i) && Fits(config.limit, KeptTotal(config, members, i), members[i])
  }

  /** The bytes of the members selected among the first n. */
  ghost function KeptTotal(config: Config, members: seq<Member>, n: nat): nat
    requires n <= |members|
    decreases n, 0
  {
    if n == 0 then 0
    else KeptTotal(config, members, n - 1) + if Kept(config, members, n - 1) then Size(members[n - 1]) else 0
  }

  /** The member claims a path that an earlier member already turned into a directory. */
  ghost predicate Blocked(config: Config, members: seq<Member>, i: nat)
    requires i < |members|
  {
    && FirstClaim(config, members, i) && MetadataOk(config, members[i])
    && exists j :: 0 <= j < i && Reaches(config, members, j) && ProperPrefix(members[i].path, members[j].path)
  }

  /** The paths reported to the error handler among the first n members. */
  ghost function RejectedPaths(config: Config, members: seq<Member>, n: nat): seq<Path>
    requires n <= |members|
  {
    if n == 0 then []
    else RejectedPaths(config, members, n - 1) + if Kept(config, members, n - 1) then [] else [members[n - 1].path]
  }

  function PathsOf(errors: seq<(Path, Code)>): seq<Path> {
    seq(|errors|, i requires 0 <= i < |errors| => errors[i].0)
  }

  // ----- What a state says after n members -------------------------------------------------------

  ghost predicate FilesAre(config: Config, members: seq<Member>, n: nat, files: map<Path, seq<byte>>)
    requires n <= |members|
  {
    && (forall a :: 0 <= a < n && Kept(config, members, a) ==>
          members[a].path in files && files[members[a].path] == Content(members[a].body.chunks))
    && (forall p :: p in files ==> exists a :: 0 <= a < n && Kept(config, members, a) && members[a].path == p)
  }

  ghost predicate DirsAre(config: Config, members: seq<Member>, n: nat, dirs: set<Path>)
    requires n <= |members|
  {
    && [] in dirs
    && (forall j, p :: 0 <= j < n && Reaches(config, members, j) && ProperPrefix(p, members[j].path) ==> p in dirs)
    && (forall p :: p in dirs && p != [] ==>
          exists j :: 0 <= j < n && Reaches(config, members, j) && ProperPrefix(p, members[j].path))
  }

  ghost predicate SeenAre(config: Config, members: seq<Member>, n: nat, seen: set<string>)
    requires n <= |members|
  {
    && (forall j :: 0 <= j < n ==> config.fold(members[j].path) in seen)
    && (forall k :: k in seen ==> exists j :: 0 <= j < n && config.fold(members[j].path) == k)
  }

  ghost predicate Counted(config: Config, members: seq<Member>, n: nat, s: State)
    requires n <= |members|
  {
    && s.total == KeptTotal(config, members, n) == Bytes(s.files)
    && s.count + |s.errors| == n
    && PathsOf(s.errors) == RejectedPaths(config, members, n)
  }

  ghost predicate StateIs(config: Config, members: seq<Member>, n: nat, s: State)
    requires n <= |members|
  {
    && FilesAre(config, members, n, s.files)
    && DirsAre(config, members, n, s.dirs)
    && SeenAre(config, members, n, s.seen)
    && Counted(config, members, n, s)
    && s.aborted.None?
  }

  // ----- One step --------------------------------------------------------------------------------

  lemma {:induction false} ClaimIsFresh(config: Config, members: seq<Member>, n: nat, s: State)
    requires n < |members| && SeenAre(config, members, n, s.seen) && FilesAre(config, members, n, s.files)
    ensures config.fold(members[n].path) in s.seen <==> !FirstClaim(config, members, n)
    ensures FirstClaim(config, members, n) ==> members[n].path !in s.files
  {
    hide Kept;
  }

  lemma {:induction false} DirectoryInTheWay(config: Config, members: seq<Member>, n: nat, s: State)
    requires n < |members| && DirsAre(config, members, n, s.dirs) && members[n].path != []
    requires FirstClaim(config, members, n) && MetadataOk(config, members[n])
    ensures members[n].path in s.dirs <==> Blocked(config, members, n)
    ensures members[n].path in s.dirs ==> Parent(members[n].path) in s.dirs
  {
    hide Reaches;
    var p := members[n].path;
    if p in s.dirs {
      var j :| 0 <= j < n && Reaches(config, members, j) && ProperPrefix(p, members[j].path);
      var q := members[j].path;
      assert q[..|p| - 1] == q[..|p|][..|p| - 1];
      assert Parent(p) == [] || ProperPrefix(Parent(p), q);
    }
  }

  lemma {:induction false} FileInTheWay(config: Config, members: seq<Member>, n: nat, s: State)
    requires n < |members| && FilesAre(config, members, n, s.files) && members[n].path != []
    ensures (exists q :: q in Above(members[n].path) && q in s.files) <==> UnderFile(config, members, n)
    ensures Parent(members[n].path) in s.files ==> UnderFile(config, members, n)
  {
    hide Kept;
    var p := members[n].path;
    assert Parent(p) == p[..|p| - 1] && Parent(p) in Above(p);
    forall q | q in Above(p) && q in s.files ensures UnderFile(config, members, n) {
      var a :| 0 <= a < n && Kept(config, members, a) && members[a].path == q;
      assert ProperPrefix(members[a].path, p);
    }
    if UnderFile(config, members, n) {
      var a :| 0 <= a < n && Kept(config, members, a) && ProperPrefix(members[a].path, p);
      assert members[a].path == p[..|members[a].path|];
      assert members[a].path in Above(p);
    }
  }

  /** The decision before the copy, read off the members alone. */
  lemma {:induction false} Decision(config: Config, members: seq<Member>, n: nat, s: State)
    requires n < |members| && StateIs(config, members, n, s) && members[n].path != []
    ensures Blocked(config, members, n) ==>
      members[n].path in s.dirs && Parent(members[n].path) in s.dirs
      && BeforeCopy(config, members[n], s).Reject? && BeforeCopy(config, members[n], s).targeted
    ensures !Blocked(config, members, n) ==>
      (BeforeCopy(config, members[n], s) == Keep <==> Reaches(config, members, n))
    ensures BeforeCopy(config, members[n], s).Reject? && BeforeCopy(config, members[n], s).targeted ==>
      (members[n].path in s.dirs <==> Blocked(config, members, n)) && members[n].path !in s.files
    ensures Reaches(config, members, n) ==> members[n].path !in s.files
  {
    hide FilesAre; hide DirsAre; hide SeenAre; hide Counted; hide UnderFile; hide FirstClaim;
    ClaimIsFresh(config, members, n, s);
    if FirstClaim(config, members, n) && MetadataOk(config, members[n]) {
      DirectoryInTheWay(config, members, n, s);
      FileInTheWay(config, members, n, s);
    }
  }

  lemma {:induction false} Seen(config: Config, members: seq<Member>, n: nat, seen: set<string>)
    requires n < |members| && SeenAre(config, members, n, seen)
    ensures SeenAre(config, members, n + 1, seen + {config.fold(members[n].path)})
  {
  }

  lemma {:induction false} FilesStep(config: Config, members: seq<Member>, n: nat, files: map<Path, seq<byte>>)
    requires n < |members| && FilesAre(config, members, n, files)
    requires Kept(config, members, n) ==> members[n].path !in files
    ensures
      FilesAre(config, members, n + 1,
               if Kept(config, members, n) then files[members[n].path := Content(members[n].body.chunks)] else files)
  {
    hide Kept; hide Content;
  }

  lemma {:induction false} DirsStep(config: Config, members: seq<Member>, n: nat, dirs: set<Path>)
    requires n < |members| && DirsAre(config, members, n, dirs)
    ensures DirsAre(config, members, n + 1,
                    if Reaches(config, members, n) then dirs + Above(members[n].path) else dirs)
  {
    hide Reaches;
    var path := members[n].path;
    forall p ensures p in Above(path) <==> ProperPrefix(p, path) {
      if ProperPrefix(p, path) { assert p == path[..|p|]; }
    }
    hide Above; hide ProperPrefix;
  }

  lemma {:induction false} NothingToDelete(files: map<Path, seq<byte>>, p: Path)
    requires p !in files
    ensures files - {p} == files
  {
    assert files - {p} == files;
  }

  /** A rejected member that finds no directory in its place leaves files and directories alone. */
  lemma {:induction false} RejectStep(config: Config, members: seq<Member>, n: nat, s: State, placed: State, t: State,
                                      code: Code, targeted: bool)
    requires config.collect && n < |members| && StateIs(config, members, n, s)
    requires !Kept(config, members, n)
    requires targeted ==> members[n].path !in placed.dirs && members[n].path !in s.files
    requires placed == s.(seen := s.seen + {config.fold(members[n].path)}, dirs := placed.dirs)
    requires DirsAre(config, members, n + 1, placed.dirs)
    requires t == Rollback(config, members[n], placed, code, targeted)
    ensures StateIs(config, members, n + 1, t)
  {
    if targeted { NothingToDelete(s.files, members[n].path); }
    Seen(config, members, n, s.seen);
    FilesStep(config, members, n, s.files);
    hide FilesAre; hide DirsAre; hide SeenAre; hide Kept; hide Bytes;
    assert t == placed.(errors := s.errors + [(members[n].path, code)]);
    assert PathsOf(t.errors) == PathsOf(s.errors) + [members[n].path];
  }

  lemma {:induction false} KeepStep(config: Config, members: seq<Member>, n: nat, s: State, t: State)
    requires n < |members| && StateIs(config, members, n, s)
    requires Kept(config, members, n) && members[n].path !in s.files
    requires t == s.(seen := s.seen + {config.fold(members[n].path)}, dirs := s.dirs + Above(members[n].path),
                     files := s.files[members[n].path := Content(members[n].body.chunks)],
                     total := s.total + Size(members[n]), count := s.count + 1)
    ensures StateIs(config, members, n + 1, t)
  {
    Seen(config, members, n, s.seen);
    FilesStep(config, members, n, s.files);
    DirsStep(config, members, n, s.dirs);
    assert Reaches(config, members, n);
    PartialBytes(s.files, members[n].path, Content(members[n].body.chunks));
    hide FilesAre; hide DirsAre; hide SeenAre; hide Kept; hide Bytes; hide Above; hide Content;
  }

  /** One round of the loop, on an empty root with a member-error handler: it aborts exactly at a
      blocked member, and otherwise keeps the member exactly when the greedy selection does. */
  lemma {:induction false} SelectionStep(config: Config, members: seq<Member>, n: nat, s: State, t: State)
    requires config.collect && n < |members| && members[n].path != []
    requires StateIs(config, members, n, s) && s.total <= config.limit.maxTotal
    requires Steps(config, members[n], s, t)
    ensures if Blocked(config, members, n) then t.aborted == Some(ArchiveCorrupt)
            else StateIs(config, members, n + 1, t)
  {
    hide StateIs; hide Blocked; hide CopyError; hide Bytes;
    Decision(config, members, n, s);
    var m := members[n];
    var claimed := s.(seen := s.seen + {config.fold(m.path)});
    StateParts(config, members, n, s);
    if !Blocked(config, members, n) {
      hide FilesAre; hide Above; hide Content; hide Fits; hide Reaches;
      match BeforeCopy(config, m, s)
      case Reject(code, targeted) =>
        assert !Reaches(config, members, n);
        DirsStep(config, members, n, s.dirs);
        RejectStep(config, members, n, s, claimed, t, code, targeted);
      case Keep =>
        var placed := claimed.(dirs := s.dirs + Above(m.path));
        DirsStep(config, members, n, s.dirs);
        if Fits(config.limit, s.total, m) {
          KeepStep(config, members, n, s, t);
        } else {
          NotAbove(m.path);
          var code :| CopyError(config.limit, s.total, m, code) && t == Rollback(config, m, placed, code, true);
          RejectStep(config, members, n, s, placed, t, code, true);
        }
    }
  }

  lemma {:induction false} StateParts(config: Config, members: seq<Member>, n: nat, s: State)
    requires n < |members| && StateIs(config, members, n, s)
    ensures s.total == KeptTotal(config, members, n) && DirsAre(config, members, n, s.dirs)
    ensures FirstClaim(config, members, n) ==> members[n].path !in s.files
  {
    ClaimIsFresh(config, members, n, s);
  }

  // ----- Whole runs ------------------------------------------------------------------------------

  ghost predicate FromEmptyRoot(run: seq<State>) {
    run != [] && run[0] == State(map[], {[]}, {}, 0, 0, [], None)
  }

  lemma {:induction false} Start(config: Config, members: seq<Member>)
    ensures StateIs(config, members, 0, State(map[], {[]}, {}, 0, 0, [], None))
  {
  }

  lemma {:induction false} NotAborted(config: Config, members: seq<Member>, n: nat, s: State)
    requires n <= |members|
    ensures StateIs(config, members, n, s) ==> s.aborted.None?
  {
  }

  /** After every member, and as long as no member was blocked, the state is the greedy selection. */
  lemma {:induction false} SelectionAfter(config: Config, members: seq<Member>, run: seq<State>, n: nat)
    requires config.collect && forall m :: m in members ==> m.path != []
    requires IsRun(config, members, run) && FromEmptyRoot(run) && n < |run|
    ensures run[n].aborted.None? ==> StateIs(config, members, n, run[n]) && forall i :: 0 <= i < n ==>
      !Blocked(config, members, i)
    ensures run[n].aborted.Some? ==>
      n > 0 && run[n].aborted == Some(ArchiveCorrupt)
      && Blocked(config, members, n - 1) && forall i :: 0 <= i < n - 1 ==> !Blocked(config, members, i)
  {
    hide StateIs; hide Blocked; hide Steps;
    if n == 0 {
      Start(config, members);
    } else {
      SelectionAfter(config, members, run, n - 1);
      assert members[n - 1] in members;
      assert run[n - 1].aborted.None?;
      SelectionStep(config, members, n - 1, run[n - 1], run[n]);
      NotAborted(config, members, n, run[n]);
    }
  }

  /** Unpacking into an empty root aborts exactly when some member is blocked, at the first such
      member; otherwise the root holds exactly the greedy selection, with total and count to match. */
  lemma {:induction false} GreedySelection(config: Config, members: seq<Member>, run: seq<State>)
    requires config.collect && forall m :: m in members ==> m.path != []
    requires IsRun(config, members, run) && Complete(members, run) && FromEmptyRoot(run)
    ensures Last(run).aborted.Some? <==> exists i :: 0 <= i < |members| && Blocked(config, members, i)
    ensures Last(run).aborted.None? ==> |run| == |members| + 1 && StateIs(config, members, |members|, Last(run))
    ensures Last(run).aborted.Some? ==>
      |run| >= 2 && Blocked(config, members, |run| - 2)
      && Last(run).aborted == Some(ArchiveCorrupt) && StateIs(config, members, |run| - 2, run[|run| - 2])
  {
    hide StateIs; hide Blocked; hide Steps;
    SelectionAfter(config, members, run, |run| - 1);
    if Last(run).aborted.Some? {
      SelectionAfter(config, members, run, |run| - 2);
    }
  }

  /** No member's path runs through another member's path. */
  ghost predicate AncestorFree(members: seq<Member>) {
    forall a, b :: 0 <= a < |members| && 0 <= b < |members| ==> !ProperPrefix(members[a].path, members[b].path)
  }

  /** A member of an archive without such paths is selected by its own merits and the bytes of the
      members selected before it. */
  ghost predicate SelectedOnMerit(config: Config, members: seq<Member>, i: nat)
    requires i < |members|
  {
    && FirstClaim(config, members, i) && MetadataOk(config, members[i]) && config.pathOk(members[i].path)
    && Fits(config.limit, KeptTotal(config, members, i), members[i])
  }

  /** An archive in which no path is an ancestor of another never aborts. */
  lemma {:induction false} NeverAborts(config: Config, members: seq<Member>, run: seq<State>)
    requires config.collect && forall m :: m in members ==> m.path != []
    requires IsRun(config, members, run) && Complete(members, run) && FromEmptyRoot(run)
    requires AncestorFree(members)
    ensures Last(run).aborted.None?
    ensures FilesAre(config, members, |members|, Last(run).files)
    ensures forall i :: 0 <= i < |members| ==> (Kept(config, members, i) <==> SelectedOnMerit(config, members, i))
  {
    GreedySelection(config, members, run);
    hide FilesAre; hide DirsAre; hide SeenAre; hide Counted; hide FirstClaim; hide IsRun;
    forall i | 0 <= i < |members| ensures !Blocked(config, members, i) { }
    forall i | 0 <= i < |members| ensures Kept(config, members, i) <==> SelectedOnMerit(config, members, i) {
      assert !UnderFile(config, members, i);
    }
  }

  /** Without that condition a readable, small file is blocked, and so aborts its archive: a file
      member whose path an earlier member turned into a directory. */
  lemma {:induction false} FileAfterItsChild(config: Config)
    requires config.limit.maxDepth >= 2 && config.pathOk(["a", "b"])
    requires config.fold(["a"]) != config.fold(["a", "b"])
    ensures
      var child, parent := Member(["a", "b"], 0, Body(true, [], false)), Member(["a"], 0, Body(true, [], false));
      Blocked(config, [child, parent], 1) && Fits(config.limit, 0, parent)
  {
    var members := [Member(["a", "b"], 0, Body(true, [], false)), Member(["a"], 0, Body(true, [], false))];
    assert Reaches(config, members, 0) && ProperPrefix(members[1].path, members[0].path);
  }

  /** In any root, and with a member-error handler, a step leaves an existing file as it is except in
      one case, in which it deletes it: the file's path is claimed for the first time by a member that
      passes the metadata checks. Such a member is rejected because its target exists, and the
      rollback removes that target. */
  lemma {:induction false} ExistingFiles(config: Config, m: Member, s: State, t: State, p: Path)
    requires config.collect && s.total <= config.limit.maxTotal && Steps(config, m, s, t)
    requires p in s.files && p !in s.dirs && m.path != []
    ensures
      if m.path == p && config.fold(p) !in s.seen && MetadataOk(config, m) && Parent(p) in s.dirs
      then p !in t.files
      else p in t.files && t.files[p] == s.files[p]
  {
    hide CopyError; hide Content; hide Above;
  }
}
