/** The per-member unpack loop of app/core/archive.py (lines 282 to 380 and 404 to 504).

    The disk is a map from paths to contents and a set of directories; a path is the list of its parts
    below the output root. A member's body is what the decompressor yields: whether it opens, the
    chunks it reads, and whether it fails after them. Case folding and the path length check are
    arbitrary functions. Links on the disk, and the parsing of archive formats, are not part of this model. */
module Unpack {
  import opened Wrappers
  import opened CentralDirectory
  import MemberPath

  type Path = seq<string>

  datatype Code = UnsafePath | LinkRejected | DuplicateMember | FileTooLarge | TotalBytesExceeded
                | DepthExceeded | FileCountExceeded | ArchiveCorrupt

  datatype Limit = Limit(maxDepth: nat, maxFiles: nat, maxSingle: nat, maxTotal: nat)

  /** The parameters of one call: limits, case folding, path length check, and whether member errors
      are collected (on_member_error given) or raised. */
  datatype Config = Config(limit: Limit, fold: Path -> string, pathOk: Path -> bool, collect: bool)

  datatype Body = Body(opens: bool, chunks: seq<seq<byte>>, fails: bool)

  /** A file member whose name passed validation; declared is the size in its metadata. */
  datatype Member = Member(path: Path, declared: nat, body: Body)

  datatype Format = Zip | Tar

  /** An archive member as its format lists it: a ZIP member is a directory by its name or its Unix mode, and a link
      or special by its Unix mode if it has one; a TAR member by its type. */
  datatype Entry = Entry(name: string, directory: bool, link: bool, special: bool, declared: nat, body: Body)

  /** The outcome of the name and type checks of one archive member. */
  datatype Checked = DirectoryMember | RefusedMember(code: Code) | FileMember(member: Member)

  // ----- Bodies ----------------------------------------------------------------------------------

  function Content(chunks: seq<seq<byte>>): seq<byte> {
    if chunks == [] then [] else Content(chunks[..|chunks| - 1]) + chunks[|chunks| - 1]
  }

  function Size(m: Member): nat { |Content(m.body.chunks)| }

  /** The least number of chunks that exceeds a cap. */
  ghost predicate FirstOver(chunks: seq<seq<byte>>, cap: nat, n: nat) {
    && n <= |chunks| && |Content(chunks[..n])| > cap
    && forall k :: 0 <= k < n ==> |Content(chunks[..k])| <= cap
  }

  lemma {:induction false} ContentGrows(chunks: seq<seq<byte>>, k: nat, n: nat)
    requires k <= n <= |chunks|
    ensures |Content(chunks[..k])| <= |Content(chunks[..n])|
    decreases n
  {
    if k < n {
      ContentGrows(chunks, k, n - 1);
      ContentStep(chunks, n - 1);
    }
  }

  lemma {:induction false} ContentStep(chunks: seq<seq<byte>>, n: nat)
    requires n < |chunks|
    ensures Content(chunks[..n + 1]) == Content(chunks[..n]) + chunks[n]
  {
    assert chunks[..n + 1][..n] == chunks[..n];
  }

  /** The room a body has when total bytes are already written. */
  function Room(limit: Limit, total: nat): nat
    requires total <= limit.maxTotal
  {
    Min(limit.maxSingle, limit.maxTotal - total)
  }

  /** Copying succeeds exactly for a body that opens, does not fail and fits the single-file limit
      and what is left of the total. */
  predicate Fits(limit: Limit, total: nat, m: Member) {
    m.body.opens && !m.body.fails && Size(m) <= limit.maxSingle && total + Size(m) <= limit.maxTotal
  }

  function OverCode(limit: Limit, chunks: seq<seq<byte>>, n: nat): Code
    requires n <= |chunks|
  {
    if |Content(chunks[..n])| > limit.maxSingle then FileTooLarge else TotalBytesExceeded
  }

  /** The error of a body that does not fit: which limit its first chunk too many breaks. */
  ghost predicate CopyError(limit: Limit, total: nat, m: Member, code: Code)
    requires total <= limit.maxTotal
  {
    var cap := Room(limit, total);
    if !m.body.opens then code == ArchiveCorrupt
    else if Size(m) <= cap then m.body.fails && code == ArchiveCorrupt
    else exists n: nat :: FirstOver(m.body.chunks, cap, n) && code == OverCode(limit, m.body.chunks, n)
  }

  // ----- The disk --------------------------------------------------------------------------------

  predicate ProperPrefix(p: Path, q: Path) { |p| < |q| && q[..|p|] == p }

  /** The directories above a path, the root among them. */
  function Above(p: Path): set<Path> { set n | 0 <= n < |p| :: p[..n] }

  function Parent(p: Path): Path { if p == [] then [] else p[..|p| - 1] }

  ghost function Bytes(files: map<Path, seq<byte>>): nat {
    if files == map[] then 0
    else var p :| p in files; |files[p]| + Bytes(files - {p})
  }

  lemma {:induction false} BytesWithout(files: map<Path, seq<byte>>, p: Path)
    requires p in files
    ensures Bytes(files) == |files[p]| + Bytes(files - {p})
    decreases |files|
  {
    var q :| q in files && Bytes(files) == |files[q]| + Bytes(files - {q});
    if p != q {
      BytesWithout(files - {q}, p);
      BytesWithout(files - {p}, q);
      assert files - {q} - {p} == files - {p} - {q};
    }
  }

  lemma {:induction false} BytesUpdate(files: map<Path, seq<byte>>, p: Path, content: seq<byte>)
    ensures Bytes(files[p := content]) == |content| + Bytes(files - {p})
  {
    BytesWithout(files[p := content], p);
    assert files[p := content] - {p} == files - {p};
  }

  class Disk {
    var files: map<Path, seq<byte>>
    var dirs: set<Path>
    ghost var peak: nat   // the most bytes held after any write

    constructor (files: map<Path, seq<byte>>, dirs: set<Path>)
      ensures this.files == files && this.dirs == dirs && peak == Bytes(files)
    {
      this.files, this.dirs := files, dirs;
      peak := Bytes(files);
    }

    /** mkdir(parents=True, exist_ok=True) of the directory that holds a file. */
    method MakeParents(p: Path) returns (ok: bool)
      modifies this`dirs
      ensures ok == (forall q :: q in Above(p) ==> q !in files)
      ensures dirs == if ok then old(dirs) + Above(p) else old(dirs)
    {
      ok := forall q :: q in Above(p) ==> q !in files;
      if ok { dirs := dirs + Above(p); }
    }

    method Create(p: Path)
      modifies this`files
      ensures files == old(files)[p := []]
    {
      files := files[p := []];
    }

    method Append(p: Path, chunk: seq<byte>)
      requires p in files
      modifies this`files, this`peak
      ensures files == old(files)[p := old(files)[p] + chunk]
      ensures peak == Max(old(peak), Bytes(files))
    {
      files := files[p := files[p] + chunk];
      peak := Max(peak, Bytes(files));
    }

    /** unlink(missing_ok=True): fails on a directory. */
    method Unlink(p: Path) returns (ok: bool)
      modifies this`files
      ensures ok == (p !in dirs)
      ensures files == if ok then old(files) - {p} else old(files)
    {
      ok := p !in dirs;
      if ok { files := files - {p}; }
    }
  }

  // ----- One member, as a whole ------------------------------------------------------------------

  /** What the loop carries from member to member. */
  datatype State =
    State(files: map<Path, seq<byte>>, dirs: set<Path>, seen: set<string>, total: nat, count: nat,
          errors: seq<(Path, Code)>, aborted: Option<Code>)

  /** The member error of a step: where its target was, if it was set, and the code. */
  datatype Outcome = Keep | Reject(code: Code, targeted: bool)

  /** Whether a member gets as far as creating its parent directories. */
  function BeforeCopy(config: Config, m: Member, s: State): Outcome {
    if config.fold(m.path) in s.seen then Reject(DuplicateMember, false)
    else if m.declared > config.limit.maxSingle then Reject(FileTooLarge, false)
    else if |m.path| > config.limit.maxDepth then Reject(DepthExceeded, false)
    else if !config.pathOk(m.path) then Reject(UnsafePath, true)
    else if m.path in s.files || m.path in s.dirs then Reject(DuplicateMember, true)
    else if Parent(m.path) in s.files then Reject(UnsafePath, true)
    else if exists q :: q in Above(m.path) && q in s.files then Reject(ArchiveCorrupt, true)
    else Keep
  }

  /** The rollback of a member: its target is deleted when its parent is a directory, which fails,
      and aborts the archive, when the target is one. */
  function Rollback(config: Config, m: Member, s: State, code: Code, targeted: bool): State {
    if targeted && Parent(m.path) in s.dirs && m.path in s.dirs then s.(aborted := Some(ArchiveCorrupt))
    else
      var files := if targeted && Parent(m.path) in s.dirs then s.files - {m.path} else s.files;
      if config.collect then s.(files := files, errors := s.errors + [(m.path, code)])
      else s.(files := files, aborted := Some(code))
  }

  /** A step of the loop, over whole bodies: no chunks. */
  ghost predicate Steps(config: Config, m: Member, s: State, t: State)
    requires s.total <= config.limit.maxTotal
  {
    var claimed := s.(seen := s.seen + {config.fold(m.path)});
    match BeforeCopy(config, m, s)
    case Reject(code, targeted) => t == Rollback(config, m, claimed, code, targeted)
    case Keep =>
      var placed := claimed.(dirs := s.dirs + Above(m.path));
      if Fits(config.limit, s.total, m) then
        t == placed.(files := s.files[m.path := Content(m.body.chunks)],
                     total := s.total + Size(m), count := s.count + 1)
      else
        exists code :: CopyError(config.limit, s.total, m, code) && t == Rollback(config, m, placed, code, true)
  }

  // ----- One member, chunk by chunk --------------------------------------------------------------

  ghost predicate WithinRoom(limit: Limit, total0: nat, chunks: seq<seq<byte>>, n: nat)
    requires total0 <= limit.maxTotal && n <= |chunks|
  {
    forall k :: 0 <= k <= n ==> |Content(chunks[..k])| <= Room(limit, total0)
  }

  /** One more chunk: either everything written still fits, or one of the two limits is passed. */
  lemma {:induction false} CopyNext(limit: Limit, total0: nat, m: Member, n: nat, written: nat)
    requires total0 <= limit.maxTotal && m.body.opens && n < |m.body.chunks|
    requires WithinRoom(limit, total0, m.body.chunks, n)
    requires written == |Content(m.body.chunks[..n + 1])|
    ensures written <= limit.maxSingle && total0 + written <= limit.maxTotal ==>
      WithinRoom(limit, total0, m.body.chunks, n + 1)
    ensures written > limit.maxSingle ==> !Fits(limit, total0, m) && CopyError(limit, total0, m, FileTooLarge)
    ensures written <= limit.maxSingle && total0 + written > limit.maxTotal ==>
      !Fits(limit, total0, m) && CopyError(limit, total0, m, TotalBytesExceeded)
  {
    hide Fits; hide CopyError; hide Content;
    if written > Room(limit, total0) { CopyTooMuch(limit, total0, m, n); }
  }

  lemma {:induction false} CopyTooMuch(limit: Limit, total0: nat, m: Member, n: nat)
    requires total0 <= limit.maxTotal && m.body.opens && n < |m.body.chunks|
    requires WithinRoom(limit, total0, m.body.chunks, n)
    requires |Content(m.body.chunks[..n + 1])| > Room(limit, total0)
    ensures !Fits(limit, total0, m)
    ensures CopyError(limit, total0, m, OverCode(limit, m.body.chunks, n + 1))
  {
    ContentGrows(m.body.chunks, n + 1, |m.body.chunks|);
    assert m.body.chunks[..|m.body.chunks|] == m.body.chunks;
    assert FirstOver(m.body.chunks, Room(limit, total0), n + 1);
  }

  lemma {:induction false} PartialBytes(files: map<Path, seq<byte>>, p: Path, content: seq<byte>)
    requires p !in files
    ensures Bytes(files[p := content]) == Bytes(files) + |content|
    ensures files[p := content] - {p} == files
  {
    BytesUpdate(files, p, content);
    assert files - {p} == files;
    assert files[p := content] - {p} == files;
  }

  lemma {:induction false} NothingCopied(limit: Limit, total0: nat, files: map<Path, seq<byte>>, m: Member, peak: nat)
    requires m.path !in files && total0 <= limit.maxTotal
    ensures Content(m.body.chunks[..0]) == [] && m.body.chunks[..|m.body.chunks|] == m.body.chunks
    ensures WithinRoom(limit, total0, m.body.chunks, 0)
    ensures peak <= Max(peak, Bytes(files) + (limit.maxTotal - total0))
    ensures files - {m.path} == files
    ensures !m.body.opens ==> !Fits(limit, total0, m) && CopyError(limit, total0, m, ArchiveCorrupt)
  {
    assert files - {m.path} == files;
  }

  lemma {:induction false} PeakStep(first: nat, peak: nat, bytes: nat, bound: nat)
    requires first <= peak <= Max(first, bound) && bytes <= bound
    ensures first <= Max(peak, bytes) <= Max(first, bound)
  {
  }

  /** The copy loop: size limits are checked on each chunk before it is written. */
  method CopyBody(limit: Limit, disk: Disk, m: Member, total0: nat)
    returns (total: nat, written: nat, error: Option<Code>)
    requires total0 <= limit.maxTotal && m.path !in disk.files
    modifies disk`files, disk`peak
    ensures total == total0 + written
    ensures error.None? <==> Fits(limit, total0, m)
    ensures error.None? ==> disk.files == old(disk.files)[m.path := Content(m.body.chunks)] && written == Size(m)
    ensures error.Some? ==> CopyError(limit, total0, m, error.value)
    ensures error.Some? ==> disk.files - {m.path} == old(disk.files)
    ensures old(disk.peak) <= disk.peak <= Max(old(disk.peak), Bytes(old(disk.files)) + (limit.maxTotal - total0))
  {
    hide *;
    total, written, error := total0, 0, None;
    ghost var before := disk.files;
    var chunks := m.body.chunks;
    NothingCopied(limit, total0, before, m, old(disk.peak));
    if !m.body.opens { return total, written, Some(ArchiveCorrupt); }
    disk.Create(m.path);
    for n := 0 to |chunks|
      invariant written == |Content(chunks[..n])| && total == total0 + written
      invariant WithinRoom(limit, total0, chunks, n)
      invariant disk.files == before[m.path := Content(chunks[..n])]
      invariant old(disk.peak) <= disk.peak <= Max(old(disk.peak), Bytes(before) + (limit.maxTotal - total0))
    {
      var chunk := chunks[n];
      ContentStep(chunks, n);
      PartialBytes(before, m.path, Content(chunks[..n]));
      written, total := written + |chunk|, total + |chunk|;
      CopyNext(limit, total0, m, n, written);
      if written > limit.maxSingle { return total, written, Some(FileTooLarge); }
      if total > limit.maxTotal { return total, written, Some(TotalBytesExceeded); }
      PartialBytes(before, m.path, Content(chunks[..n + 1]));
      PeakStep(old(disk.peak), disk.peak, Bytes(before) + written, Bytes(before) + (limit.maxTotal - total0));
      disk.Append(m.path, chunk);
    }
    PartialBytes(before, m.path, Content(chunks));
    CopyAll(limit, total0, m);
    if m.body.fails { return total, written, Some(ArchiveCorrupt); }
  }

  lemma {:induction false} CopyAll(limit: Limit, total0: nat, m: Member)
    requires total0 <= limit.maxTotal && m.body.opens && WithinRoom(limit, total0, m.body.chunks, |m.body.chunks|)
    ensures |Content(m.body.chunks)| == Size(m)
    ensures Fits(limit, total0, m) <==> !m.body.fails
    ensures m.body.fails ==> CopyError(limit, total0, m, ArchiveCorrupt)
  {
    assert m.body.chunks[..|m.body.chunks|] == m.body.chunks;
  }

  // ----- The loop --------------------------------------------------------------------------------

  ghost function Last(run: seq<State>): State
    requires run != []
  {
    run[|run| - 1]
  }

  /** A run of the loop over the first members: a state before each of them and one after the last
      one processed. Only the last state can be an aborted one. */
  ghost predicate IsRun(config: Config, members: seq<Member>, run: seq<State>) {
    && 1 <= |run| <= |members| + 1
    && (forall i :: 0 <= i < |run| ==> run[i].total <= config.limit.maxTotal)
    && (forall i :: 0 <= i < |run| - 1 ==> run[i].aborted.None? && Steps(config, members[i], run[i], run[i + 1]))
  }

  ghost predicate Complete(members: seq<Member>, run: seq<State>)
    requires run != []
  {
    |run| == |members| + 1 || Last(run).aborted.Some?
  }

  ghost function Snapshot(disk: Disk, seen: set<string>, total: nat, count: nat, errors: seq<(Path, Code)>,
                          aborted: Option<Code>): State
    reads disk
  {
    State(disk.files, disk.dirs, seen, total, count, errors, aborted)
  }

  /** _delete_partial_target followed by _record_member_error. */
  method FailMember(config: Config, disk: Disk, m: Member, code: Code, targeted: bool, errors0: seq<(Path, Code)>,
                    ghost seen: set<string>, ghost total: nat, ghost count: nat)
    returns (errors: seq<(Path, Code)>, aborted: Option<Code>)
    modifies disk`files
    ensures Snapshot(disk, seen, total, count, errors, aborted)
      == Rollback(config, m, old(Snapshot(disk, seen, total, count, errors0, None)), code, targeted)
  {
    errors, aborted := errors0, None;
    if targeted && Parent(m.path) in disk.dirs {
      var ok := disk.Unlink(m.path);
      if !ok { return errors, Some(ArchiveCorrupt); }
    }
    if config.collect {
      errors := errors + [(m.path, code)];
    } else {
      aborted := Some(code);
    }
  }

  /** One round of the member loop. */
  method ProcessMember(config: Config, disk: Disk, m: Member, seen0: set<string>, total0: nat, count0: nat,
                       errors0: seq<(Path, Code)>)
    returns (seen: set<string>, total: nat, count: nat, errors: seq<(Path, Code)>, aborted: Option<Code>)
    requires total0 <= config.limit.maxTotal && m.path != []
    modifies disk
    ensures Steps(config, m, old(Snapshot(disk, seen0, total0, count0, errors0, None)),
                  Snapshot(disk, seen, total, count, errors, aborted))
    ensures total <= config.limit.maxTotal
    ensures old(disk.peak) <= disk.peak
      <= Max(old(disk.peak), Bytes(old(disk.files)) + (config.limit.maxTotal - total0))
  {
    hide Bytes; hide Above; hide CopyError; hide Fits; hide Content;
    seen, total, count, errors, aborted := seen0, total0, count0, errors0, None;
    ghost var s := Snapshot(disk, seen0, total0, count0, errors0, None);
    var key := config.fold(m.path);
    if key in seen {
      errors, aborted := FailMember(config, disk, m, DuplicateMember, false, errors, seen + {key}, total, count);
      seen := seen + {key};
      return;
    }
    seen := seen + {key};
    if m.declared > config.limit.maxSingle {
      errors, aborted := FailMember(config, disk, m, FileTooLarge, false, errors, seen, total, count);
      return;
    }
    if |m.path| > config.limit.maxDepth {
      errors, aborted := FailMember(config, disk, m, DepthExceeded, false, errors, seen, total, count);
      return;
    }
    if !config.pathOk(m.path) {
      errors, aborted := FailMember(config, disk, m, UnsafePath, true, errors, seen, total, count);
      return;
    }
    if m.path in disk.files || m.path in disk.dirs {
      errors, aborted := FailMember(config, disk, m, DuplicateMember, true, errors, seen, total, count);
      return;
    }
    if Parent(m.path) in disk.files {
      errors, aborted := FailMember(config, disk, m, UnsafePath, true, errors, seen, total, count);
      return;
    }
    var made := disk.MakeParents(m.path);
    if !made {
      errors, aborted := FailMember(config, disk, m, ArchiveCorrupt, true, errors, seen, total, count);
      return;
    }
    assert BeforeCopy(config, m, s) == Keep;
    var written, error;
    total, written, error := CopyBody(config.limit, disk, m, total);
    if error.None? {
      count := count + 1;
      FitsTotal(config.limit, total0, m);
      return;
    }
    total := total - written;
    label copied:
    ghost var placed := s.(seen := seen, dirs := disk.dirs);
    NotAbove(m.path);
    errors, aborted := FailMember(config, disk, m, error.value, true, errors, seen, total, count);
    assert old@copied(Snapshot(disk, seen, total, count, errors0, None)) == placed.(files := old@copied(disk.files));
    RollbackOfPartial(config, m, placed, old@copied(disk.files), error.value);
  }

  lemma {:induction false} NotAbove(p: Path)
    ensures p !in Above(p)
  {
  }

  lemma {:induction false} FitsTotal(limit: Limit, total0: nat, m: Member)
    requires Fits(limit, total0, m)
    ensures total0 + Size(m) <= limit.maxTotal
  {
  }

  /** Deleting the partial target of a failed copy leaves the files of before the member. */
  lemma {:induction false} RollbackOfPartial(config: Config, m: Member, placed: State, partial: map<Path, seq<byte>>,
                                             code: Code)
    requires partial - {m.path} == placed.files && m.path !in placed.files && m.path !in placed.dirs
    requires m.path != [] && Above(m.path) <= placed.dirs
    ensures Rollback(config, m, placed.(files := partial), code, true) == Rollback(config, m, placed, code, true)
  {
    assert m.path[..|m.path| - 1] in Above(m.path);
    assert placed.files - {m.path} == placed.files;
  }

  /** A step adds to the bytes on disk no more than it adds to the total. */
  lemma {:induction false} StepBytes(config: Config, m: Member, s: State, t: State)
    requires s.total <= config.limit.maxTotal && Steps(config, m, s, t)
    ensures s.total <= t.total <= config.limit.maxTotal
    ensures Bytes(t.files) <= Bytes(s.files) + (t.total - s.total)
  {
    hide Bytes; hide CopyError; hide Above;
    if BeforeCopy(config, m, s) == Keep && Fits(config.limit, s.total, m) {
      PartialBytes(s.files, m.path, Content(m.body.chunks));
    } else {
      assert t.total == s.total;
      BytesShrink(s.files, m.path);
      assert t.files == s.files || t.files == s.files - {m.path};
    }
  }

  lemma {:induction false} BytesShrink(files: map<Path, seq<byte>>, p: Path)
    ensures Bytes(files - {p}) <= Bytes(files)
  {
    if p in files { BytesWithout(files, p); } else { assert files - {p} == files; }
  }

  /** The whole member loop. */
  method UnpackMembers(config: Config, disk: Disk, members: seq<Member>)
    returns (seen: set<string>, total: nat, count: nat, errors: seq<(Path, Code)>, aborted: Option<Code>,
             ghost run: seq<State>)
    requires forall m :: m in members ==> m.path != []
    modifies disk
    ensures run != [] && IsRun(config, members, run) && Complete(members, run)
    ensures run[0] == State(old(disk.files), old(disk.dirs), {}, 0, 0, [], None)
    ensures Last(run) == Snapshot(disk, seen, total, count, errors, aborted)
    ensures disk.peak <= Max(old(disk.peak), Bytes(old(disk.files)) + config.limit.maxTotal)
  {
    hide Steps; hide Bytes;
    seen, total, count, errors, aborted := {}, 0, 0, [], None;
    run := [Snapshot(disk, seen, total, count, errors, aborted)];
    for n := 0 to |members|
      invariant |run| == n + 1 && IsRun(config, members, run)
      invariant run[0] == State(old(disk.files), old(disk.dirs), {}, 0, 0, [], None)
      invariant Last(run) == Snapshot(disk, seen, total, count, errors, aborted)
      invariant aborted.None? && total <= config.limit.maxTotal
      invariant Bytes(disk.files) <= Bytes(old(disk.files)) + total
      invariant disk.peak <= Max(old(disk.peak), Bytes(old(disk.files)) + config.limit.maxTotal)
    {
      ghost var s := Last(run);
      seen, total, count, errors, aborted := ProcessMember(config, disk, members[n], seen, total, count, errors);
      ghost var t := Snapshot(disk, seen, total, count, errors, aborted);
      StepBytes(config, members[n], s, t);
      run := run + [t];
      if aborted.Some? { return; }
    }
  }

  // ----- The paths of a run ----------------------------------------------------------------------

  /** A path all of whose parts stay below their directory. */
  ghost predicate CleanPath(p: Path) { forall part :: part in p ==> MemberPath.CleanPart(part) }

  /** Whatever stands on the disk and did not before stands at a clean path. */
  ghost predicate OnlyCleanPaths(files0: map<Path, seq<byte>>, dirs0: set<Path>, files: map<Path, seq<byte>>,
                                 dirs: set<Path>)
  {
    && (forall p :: p in files && p !in files0 ==> p != [] && CleanPath(p))
    && (forall p :: p in dirs && p !in dirs0 ==> CleanPath(p))
  }

  lemma {:induction false} StepPaths(config: Config, m: Member, s: State, t: State)
    requires s.total <= config.limit.maxTotal && Steps(config, m, s, t)
    ensures forall p :: p in t.files ==> p in s.files || p == m.path
    ensures forall p :: p in t.dirs ==> p in s.dirs || p in Above(m.path)
  {
    hide CopyError; hide Above; hide Fits; hide Content;
  }

  lemma {:induction false} AboveClean(p: Path)
    requires CleanPath(p)
    ensures forall q :: q in Above(p) ==> CleanPath(q)
  {
    hide MemberPath.CleanPart;
    forall q, part | q in Above(p) && part in q ensures part in p { }
  }

  /** No run writes a file or makes a directory at a path with an unclean part, when no member has one. */
  lemma {:induction false} RunPaths(config: Config, members: seq<Member>, run: seq<State>, n: nat)
    requires IsRun(config, members, run) && n < |run|
    requires forall m :: m in members ==> m.path != [] && CleanPath(m.path)
    ensures OnlyCleanPaths(run[0].files, run[0].dirs, run[n].files, run[n].dirs)
  {
    hide CleanPath; hide Steps; hide Above;
    if n > 0 {
      RunPaths(config, members, run, n - 1);
      var m := members[n - 1];
      assert m in members;
      StepPaths(config, m, run[n - 1], run[n]);
      AboveClean(m.path);
    }
  }

  // ----- The whole archive -----------------------------------------------------------------------

  datatype Unpacked = Written(count: nat) | Aborted(code: Code)

  function DropSeparators(name: string): string {
    if name != "" && MemberPath.Separator(name[|name| - 1]) then DropSeparators(name[..|name| - 1]) else name
  }

  function DisplayName(e: Entry): string { if e.directory then DropSeparators(e.name) else e.name }

  /** _validate_zip_member. */
  function CheckZip(limit: Limit, e: Entry): Checked {
    match MemberPath.Normalize(DisplayName(e))
    case Unsafe => RefusedMember(UnsafePath)
    case Parts(parts) =>
      if e.link then RefusedMember(LinkRejected)
      else if !e.directory && e.special then RefusedMember(UnsafePath)
      else if |parts| > limit.maxDepth then RefusedMember(DepthExceeded)
      else if e.directory then DirectoryMember
      else FileMember(Member(parts, e.declared, e.body))
  }

  /** _validate_tar_member. */
  function CheckTar(e: Entry): Checked {
    if e.link then RefusedMember(LinkRejected)
    else
      match MemberPath.Normalize(DisplayName(e))
      case Unsafe => RefusedMember(UnsafePath)
      case Parts(parts) =>
        if e.directory then DirectoryMember
        else if e.special then RefusedMember(UnsafePath)
        else FileMember(Member(parts, e.declared, e.body))
  }

  function Check(format: Format, limit: Limit, e: Entry): Checked {
    match format
    case Zip => CheckZip(limit, e)
    case Tar => CheckTar(e)
  }

  /** The checks of one member. */
  method CheckMember(format: Format, limit: Limit, e: Entry) returns (checked: Checked)
    ensures checked == Check(format, limit, e)
    ensures checked.FileMember? ==> checked.member.path != [] && CleanPath(checked.member.path)
  {
    if format == Tar && e.link { return RefusedMember(LinkRejected); }
    var normalized := MemberPath.NormalizeMemberPath(DisplayName(e));
    if normalized.Unsafe? { return RefusedMember(UnsafePath); }
    MemberPath.NormalizedIsClean(DisplayName(e));
    if e.link { return RefusedMember(LinkRejected); }
    if !e.directory && e.special { return RefusedMember(UnsafePath); }
    if format == Zip && |normalized.parts| > limit.maxDepth { return RefusedMember(DepthExceeded); }
    if e.directory { return DirectoryMember; }
    checked := FileMember(Member(normalized.parts, e.declared, e.body));
  }

  /** What the checks make of the members of an archive. */
  function Checks(format: Format, limit: Limit, archive: seq<Entry>): seq<Checked> {
    seq(|archive|, i requires 0 <= i < |archive| => Check(format, limit, archive[i]))
  }

  function FileCount(archive: seq<Entry>): nat {
    if archive == [] then 0 else FileCount(archive[..|archive| - 1]) + if archive[|archive| - 1].directory then 0 else 1
  }

  function Prepared(checks: seq<Checked>): seq<Member> {
    if checks == [] then []
    else
      var last := checks[|checks| - 1];
      Prepared(checks[..|checks| - 1]) + if last.FileMember? then [last.member] else []
  }

  function Refusals(checks: seq<Checked>): seq<Code> {
    if checks == [] then []
    else
      var last := checks[|checks| - 1];
      Refusals(checks[..|checks| - 1]) + if last.RefusedMember? then [last.code] else []
  }

  lemma {:induction false} ChecksStep(checks: seq<Checked>, n: nat)
    requires n < |checks|
    ensures Prepared(checks[..n + 1]) == Prepared(checks[..n]) + if checks[n].FileMember? then [checks[n].member]
                                                                 else []
    ensures Refusals(checks[..n + 1]) == Refusals(checks[..n]) + if checks[n].RefusedMember? then [checks[n].code]
                                                                 else []
  {
    assert checks[..n + 1][..n] == checks[..n];
  }

  method CountFiles(archive: seq<Entry>) returns (files: nat)
    ensures files == FileCount(archive)
  {
    files := 0;
    for n := 0 to |archive|
      invariant files == FileCount(archive[..n])
    {
      assert archive[..n + 1][..n] == archive[..n];
      if !archive[n].directory { files := files + 1; }
    }
    assert archive[..|archive|] == archive;
  }

  /** The checks before anything is written: the members to unpack and the refusals; without collecting,
      the first refusal ends the call. */
  method Sift(format: Format, limit: Limit, archive: seq<Entry>, collect: bool)
    returns (prepared: seq<Member>, refused: seq<Code>, stop: Option<Code>)
    ensures var checks := Checks(format, limit, archive);
      && (stop.Some? <==> !collect && Refusals(checks) != [])
      && (stop.Some? ==> stop.value == Refusals(checks)[0])
      && (stop.None? ==> prepared == Prepared(checks) && refused == Refusals(checks))
    ensures forall m :: m in prepared ==> m.path != [] && CleanPath(m.path)
  {
    ghost var checks := Checks(format, limit, archive);
    prepared, refused, stop := [], [], None;
    for n := 0 to |archive|
      invariant prepared == Prepared(checks[..n]) && refused == Refusals(checks[..n])
      invariant !collect ==> refused == []
      invariant forall m :: m in prepared ==> m.path != [] && CleanPath(m.path)
    {
      ChecksStep(checks, n);
      assert checks[n] == Check(format, limit, archive[n]);
      hide Check;
      var checked := CheckMember(format, limit, archive[n]);
      if checked.RefusedMember? { FirstRefusal(checks, n + 1); }
      hide Prepared; hide Refusals; hide CleanPath;
      match checked
      case DirectoryMember =>
      case FileMember(m) => prepared := prepared + [m];
      case RefusedMember(code) =>
        refused := refused + [code];
        if !collect { return prepared, refused, Some(code); }
    }
    assert checks[..|archive|] == checks;
  }

  /** unpack_zip and unpack_tar once the members were read: too many files abort before anything is written, and so
      does the first refused member when errors are not collected. */
  method UnpackArchive(format: Format, config: Config, disk: Disk, archive: seq<Entry>)
    returns (result: Unpacked, refused: seq<Code>, errors: seq<(Path, Code)>, ghost run: seq<State>)
    modifies disk
    ensures disk.peak <= Max(old(disk.peak), Bytes(old(disk.files)) + config.limit.maxTotal)
    // Whatever the names of the members, nothing is made at a path with an unclean part.
    ensures OnlyCleanPaths(old(disk.files), old(disk.dirs), disk.files, disk.dirs)
    ensures var checks := Checks(format, config.limit, archive);
      if FileCount(archive) > config.limit.maxFiles then
        result == Aborted(FileCountExceeded) && unchanged(disk)
      else if !config.collect && Refusals(checks) != [] then
        result == Aborted(Refusals(checks)[0]) && unchanged(disk)
      else
        && refused == Refusals(checks)
        && IsRun(config, Prepared(checks), run) && Complete(Prepared(checks), run)
        && run[0] == State(old(disk.files), old(disk.dirs), {}, 0, 0, [], None)
        && Last(run).files == disk.files && Last(run).dirs == disk.dirs && Last(run).errors == errors
        && result == (match Last(run).aborted
                      case None => Written(Last(run).count)
                      case Some(code) => Aborted(code))
  {
    hide IsRun; hide Bytes; hide FileCount; hide Prepared; hide Refusals; hide Checks; hide CleanPath;
    refused, errors, run := [], [], [];
    var files := CountFiles(archive);
    if files > config.limit.maxFiles { return Aborted(FileCountExceeded), refused, errors, run; }
    var prepared, stop;
    prepared, refused, stop := Sift(format, config.limit, archive, config.collect);
    if stop.Some? { return Aborted(stop.value), refused, errors, run; }
    var seen, total, count, aborted;
    seen, total, count, errors, aborted, run := UnpackMembers(config, disk, prepared);
    RunPaths(config, prepared, run, |run| - 1);
    result := if aborted.None? then Written(count) else Aborted(aborted.value);
  }

  lemma {:induction false} FirstRefusal(checks: seq<Checked>, n: nat)
    requires n <= |checks| && Refusals(checks[..n]) != []
    ensures Refusals(checks) != [] && Refusals(checks)[0] == Refusals(checks[..n])[0]
    decreases |checks|
  {
    if n == |checks| {
      assert checks[..n] == checks;
    } else {
      var front := checks[..|checks| - 1];
      assert front[..n] == checks[..n];
      FirstRefusal(front, n);
    }
  }
}
