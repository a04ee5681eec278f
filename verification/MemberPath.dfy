/** Normalisation of archive member paths (app/core/archive.py, lines 75 to 105). */
module MemberPath {
  import opened Texts
  import opened Wrappers

  datatype Normalized = Parts(parts: seq<string>) | Unsafe

  predicate IsLetter(c: char) { 'A' <= c <= 'Z' || 'a' <= c <= 'z' }

  predicate Separator(c: char) { c == '/' || c == '\\' }

  predicate DriveLike(s: string) { |s| >= 2 && IsLetter(s[0]) && s[1] == ':' }

  /** Splitting on both separators: the program first turns backslashes into slashes. */
  function Split(s: string): (pieces: seq<string>)
    ensures pieces != []
  {
    if s == "" then [""]
    else
      var rest := Split(s[1..]);
      if Separator(s[0]) then [""] + rest else [[s[0]] + rest[0]] + rest[1..]
  }

  function Join(parts: seq<string>): string {
    if parts == [] then "" else if |parts| == 1 then parts[0] else parts[0] + "/" + Join(parts[1..])
  }

  /** The parts kept of the first pieces; Unsafe at an empty piece and at a parent reference. */
  function KeepParts(pieces: seq<string>): Normalized {
    if pieces == [] then Parts([])
    else
      var part := Strip(pieces[|pieces| - 1]);
      match KeepParts(pieces[..|pieces| - 1])
      case Unsafe => Unsafe
      case Parts(parts) =>
        if part == "" || part == ".." then Unsafe else if part == "." then Parts(parts) else Parts(parts + [part])
  }

  function Normalize(path: string): Normalized {
    var candidate := Strip(path);
    if '\0' in path || candidate == "" || Separator(candidate[0]) || DriveLike(candidate) then Unsafe
    else
      var kept := KeepParts(Split(candidate));
      if kept == Parts([]) then Unsafe else kept
  }

  method NormalizeMemberPath(path: string) returns (result: Normalized)
    ensures result == Normalize(path)
  {
    if '\0' in path { return Unsafe; }
    var candidate := Strip(path);
    if candidate == "" { return Unsafe; }
    if Separator(candidate[0]) { return Unsafe; }
    if DriveLike(candidate) { return Unsafe; }
    var parts: seq<string> := [];
    var pieces := Split(candidate);
    for n := 0 to |pieces|
      invariant KeepParts(pieces[..n]) == Parts(parts)
    {
      assert pieces[..n + 1][..n] == pieces[..n];
      var part := Strip(pieces[n]);
      if part == "" || part == ".." {
        KeepUnsafe(pieces, n + 1);
        return Unsafe;
      }
      if part == "." { continue; }
      parts := parts + [part];
    }
    assert pieces[..|pieces|] == pieces;
    if parts == [] { return Unsafe; }
    result := Parts(parts);
  }

  lemma {:induction false} KeepUnsafe(pieces: seq<string>, n: nat)
    requires n <= |pieces| && KeepParts(pieces[..n]) == Unsafe
    ensures KeepParts(pieces) == Unsafe
    decreases |pieces|
  {
    if n == |pieces| {
      assert pieces[..n] == pieces;
    } else {
      assert pieces[..|pieces| - 1][..n] == pieces[..n];
      KeepUnsafe(pieces[..|pieces| - 1], n);
    }
  }

  // ----- What a normalized path is ---------------------------------------------------------------

  ghost predicate Trimmed(s: string) { s != "" && !IsSpace(s[0]) && !IsSpace(s[|s| - 1]) }

  /** A part that stays below its directory: not empty, not a reference to this or the parent
      directory, without separator, NUL or outer white space. */
  ghost predicate CleanPart(s: string) {
    Trimmed(s) && s != "." && s != ".." && forall c :: c in s ==> !Separator(c) && c != '\0'
  }

  lemma {:induction false} StripLeftFacts(s: string)
    ensures forall c :: c in StripLeft(s) ==> c in s
    ensures StripLeft(s) == "" || !IsSpace(StripLeft(s)[0])
  {
    if s != "" && IsSpace(s[0]) { StripLeftFacts(s[1..]); }
  }

  lemma {:induction false} StripRightFacts(s: string)
    ensures forall c :: c in StripRight(s) ==> c in s
    ensures StripRight(s) == "" || (!IsSpace(StripRight(s)[|StripRight(s)| - 1]) && StripRight(s)[0] == s[0])
  {
    if s != "" && IsSpace(s[|s| - 1]) { StripRightFacts(s[..|s| - 1]); }
  }

  lemma {:induction false} StripFacts(s: string)
    ensures forall c :: c in Strip(s) ==> c in s
    ensures Strip(s) == "" || Trimmed(Strip(s))
    ensures Trimmed(s) ==> Strip(s) == s
  {
    StripLeftFacts(s);
    StripRightFacts(StripLeft(s));
  }

  lemma {:induction false} SplitPieces(s: string)
    ensures forall p, c :: p in Split(s) && c in p ==> c in s && !Separator(c)
  {
    if s != "" {
      SplitPieces(s[1..]);
      var rest := Split(s[1..]);
      forall p, c | p in Split(s) && c in p ensures c in s && !Separator(c) {
        if !Separator(s[0]) && p == [s[0]] + rest[0] {
          assert c == s[0] || c in rest[0];
        } else {
          assert p == "" || p in rest;
        }
      }
    }
  }

  lemma {:induction false} KeptPartsAreClean(pieces: seq<string>)
    requires forall p, c :: p in pieces && c in p ==> !Separator(c) && c != '\0'
    ensures KeepParts(pieces).Parts? ==> forall p :: p in KeepParts(pieces).parts ==> CleanPart(p)
  {
    if pieces != [] {
      var front, piece := pieces[..|pieces| - 1], pieces[|pieces| - 1];
      assert forall p :: p in front ==> p in pieces;
      KeptPartsAreClean(front);
      StripFacts(piece);
      assert piece in pieces;
    }
  }

  /** A path that normalizes has at least one part, and clean parts only. */
  lemma {:induction false} NormalizedIsClean(path: string)
    requires Normalize(path).Parts?
    ensures Normalize(path).parts != [] && forall p :: p in Normalize(path).parts ==> CleanPart(p)
  {
    StripFacts(path);
    SplitPieces(Strip(path));
    KeptPartsAreClean(Split(Strip(path)));
  }

  // ----- Normalizing twice -----------------------------------------------------------------------

  lemma {:induction false} SplitClean(s: string)
    requires forall c :: c in s ==> !Separator(c)
    ensures Split(s) == [s]
  {
    if s != "" {
      SplitClean(s[1..]);
      assert s[0] in s && [s[0]] + s[1..] == s;
    }
  }

  lemma {:induction false} SplitAtSlash(s: string, t: string)
    requires forall c :: c in s ==> !Separator(c)
    ensures Split(s + "/" + t) == [s] + Split(t)
  {
    if s == "" {
      assert (s + "/" + t)[1..] == t;
    } else {
      SplitAtSlash(s[1..], t);
      assert s[0] in s && [s[0]] + s[1..] == s;
      assert (s + "/" + t)[1..] == s[1..] + "/" + t;
    }
  }

  lemma {:induction false} SplitJoin(parts: seq<string>)
    requires parts != [] && forall p :: p in parts ==> CleanPart(p)
    ensures Split(Join(parts)) == parts
  {
    assert parts[0] in parts;
    if |parts| == 1 {
      SplitClean(parts[0]);
    } else {
      SplitAtSlash(parts[0], Join(parts[1..]));
      SplitJoin(parts[1..]);
    }
  }

  lemma {:induction false} KeepClean(parts: seq<string>)
    requires forall p :: p in parts ==> CleanPart(p)
    ensures KeepParts(parts) == Parts(parts)
  {
    if parts != [] {
      var front, part := parts[..|parts| - 1], parts[|parts| - 1];
      assert part in parts && forall p :: p in front ==> p in parts;
      KeepClean(front);
      StripFacts(part);
    }
  }

  lemma {:induction false} JoinFacts(parts: seq<string>)
    requires parts != [] && forall p :: p in parts ==> CleanPart(p)
    ensures Trimmed(Join(parts)) && '\0' !in Join(parts)
    ensures CleanPart(parts[0]) && Join(parts)[0] == parts[0][0]
    ensures DriveLike(Join(parts)) <==> DriveLike(parts[0])
  {
    assert parts[0] in parts;
    if |parts| > 1 { JoinFacts(parts[1..]); }
  }

  /** Normalizing the canonical form of a path gives the same parts exactly when its first part does
      not look like a drive; a path such as ./c:/x normalizes, but its canonical form c:/x does not. */
  lemma {:induction false} NormalizeCanonical(path: string)
    requires Normalize(path).Parts?
    ensures
      var parts := Normalize(path).parts;
      parts != [] && Normalize(Join(parts)) == if DriveLike(parts[0]) then Unsafe else Normalize(path)
  {
    NormalizedIsClean(path);
    var parts := Normalize(path).parts;
    assert parts[0] in parts;
    JoinFacts(parts);
    StripFacts(Join(parts));
    SplitJoin(parts);
    KeepClean(parts);
  }
}
