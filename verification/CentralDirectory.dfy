/** The scan of raw member names in a ZIP central directory (app/core/archive.py, lines 142 to 208).

    Layouts are those of PKWARE's APPNOTE.TXT: central directory header (4.3.12), ZIP64 end of central
    directory record (4.3.14) and locator (4.3.15), end of central directory record (4.3.16). */
module CentralDirectory {
  import opened Wrappers

  newtype byte = x: int | 0 <= x < 256

  const HEADER_SIGNATURE: seq<byte> := [0x50, 0x4B, 1, 2]
  const END_SIGNATURE: seq<byte> := [0x50, 0x4B, 5, 6]
  const ZIP64_END_SIGNATURE: seq<byte> := [0x50, 0x4B, 6, 6]
  const ZIP64_LOCATOR_SIGNATURE: seq<byte> := [0x50, 0x4B, 6, 7]
  const UNSET_32: nat := 0xFFFFFFFF
  const TAIL_LIMIT: nat := 65557

  // ----- Little-endian numbers -------------------------------------------------------------------

  function Pow256(width: nat): (p: nat)
    ensures p > 0
  {
    if width == 0 then 1 else 256 * Pow256(width - 1)
  }

  function LE(b: seq<byte>): nat {
    if b == [] then 0 else b[0] as nat + 256 * LE(b[1..])
  }

  function EncodeLE(n: nat, width: nat): (b: seq<byte>)
    ensures |b| == width
  {
    if width == 0 then [] else [(n % 256) as byte] + EncodeLE(n / 256, width - 1)
  }

  lemma {:induction false} DecodeEncode(n: nat, width: nat)
    requires n < Pow256(width)
    ensures LE(EncodeLE(n, width)) == n
  {
    if width > 0 {
      DecodeEncode(n / 256, width - 1);
      assert EncodeLE(n, width)[1..] == EncodeLE(n / 256, width - 1);
    }
  }

  lemma {:induction false} EncodeDecode(b: seq<byte>)
    ensures LE(b) < Pow256(|b|)
    ensures EncodeLE(LE(b), |b|) == b
  {
    if b != [] {
      EncodeDecode(b[1..]);
      assert LE(b) / 256 == LE(b[1..]) && LE(b) % 256 == b[0] as nat;
    }
  }

  // ----- Entries ---------------------------------------------------------------------------------

  /** One central directory entry: the fields the scan skips are kept as raw bytes. */
  datatype Entry = Entry(head: seq<byte>, attributes: seq<byte>, name: seq<byte>, extra: seq<byte>, comment: seq<byte>)
  {
    ghost predicate Valid() {
      |head| == 24 && |attributes| == 12 && |name| < 0x10000 && |extra| < 0x10000 && |comment| < 0x10000
    }

    function Size(): nat { 46 + |name| + |extra| + |comment| }

    function Header(): (h: seq<byte>) {
      HEADER_SIGNATURE + head + EncodeLE(|name|, 2) + EncodeLE(|extra|, 2) + EncodeLE(|comment|, 2) + attributes
    }

    function Encode(): seq<byte> { Header() + name + extra + comment }
  }

  function EncodeAll(entries: seq<Entry>): seq<byte> {
    if entries == [] then [] else entries[0].Encode() + EncodeAll(entries[1..])
  }

  ghost predicate AllValid(entries: seq<Entry>) {
    forall e :: e in entries ==> e.Valid()
  }

  /** The names up to the first one that holds a NUL, that one included. */
  function NamesUntilNul(entries: seq<Entry>): seq<seq<byte>> {
    if entries == [] then []
    else if 0 in entries[0].name then [entries[0].name]
    else [entries[0].name] + NamesUntilNul(entries[1..])
  }

  predicate NoNul(entries: seq<Entry>) {
    forall e :: e in entries ==> 0 !in e.name
  }

  // ----- The scan as a function ------------------------------------------------------------------

  datatype Site = NoEndRecord | ShortEndRecord | NoLocator | ShortLocator | ShortZip64Record | BadZip64Record
                | OutOfRange | BadHeader | ShortName | SeekMismatch | SizeMismatch

  /** NulName stands for unsafe_path; the sites of Corrupt stand for archive_corrupt. */
  datatype Verdict = Accepted | Corrupt(site: Site) | NulName(name: seq<byte>)

  datatype Scan = Scan(verdict: Verdict, visited: seq<seq<byte>>)

  /** fp.read(n) at a position: fewer bytes at the end of the file. */
  function ReadAt(data: seq<byte>, pos: nat, n: nat): (r: seq<byte>)
    ensures |r| <= n
    ensures pos + n <= |data| ==> r == data[pos..pos + n]
    ensures |r| == n && n > 0 ==> pos + n <= |data|
  {
    if pos >= |data| then [] else if pos + n <= |data| then data[pos..pos + n] else data[pos..]
  }

  predicate IsHeader(header: seq<byte>) {
    |header| == 46 && header[..4] == HEADER_SIGNATURE
  }

  function NameLength(header: seq<byte>): nat requires |header| == 46 { LE(header[28..30]) }
  function ExtraLength(header: seq<byte>): nat requires |header| == 46 { LE(header[30..32]) }
  function CommentLength(header: seq<byte>): nat requires |header| == 46 { LE(header[32..34]) }

  function EntrySize(header: seq<byte>): nat requires |header| == 46 {
    46 + NameLength(header) + ExtraLength(header) + CommentLength(header)
  }

  datatype Step = Bad(site: Site) | Nul(nul: seq<byte>) | Next(name: seq<byte>, size: nat)

  /** What the scan reads at one entry. */
  function StepAt(data: seq<byte>, pos: nat): (step: Step)
    ensures step.Next? ==> step.size >= 46
    ensures step != Bad(SeekMismatch)
  {
    var header := ReadAt(data, pos, 46);
    if !IsHeader(header) then Bad(BadHeader)
    else
      var name := ReadAt(data, pos + 46, NameLength(header));
      if |name| != NameLength(header) then Bad(ShortName)
      else if 0 in name then Nul(name)
      else Next(name, EntrySize(header))
  }

  /** The walk from consumed bytes into a directory of size bytes at offset. */
  function Walk(data: seq<byte>, offset: nat, size: nat, consumed: nat): Scan
    decreases Max(size - consumed, 0)
  {
    if consumed >= size then Scan(if consumed == size then Accepted else Corrupt(SizeMismatch), [])
    else
      match StepAt(data, offset + consumed)
      case Bad(site) => Scan(Corrupt(site), [])
      case Nul(name) => Scan(NulName(name), [name])
      case Next(name, n) =>
        var rest := Walk(data, offset, size, consumed + n);
        rest.(visited := [name] + rest.visited)
  }

  predicate At(s: seq<byte>, i: int, pattern: seq<byte>) {
    0 <= i <= |s| - |pattern| && s[i..i + |pattern|] == pattern
  }

  /** bytes.rfind: the last position of a pattern, or -1. */
  function RFind(s: seq<byte>, pattern: seq<byte>, from: int): (i: int)
    requires from <= |s| - |pattern|
    ensures -1 <= i <= Max(from, -1)
    ensures i >= 0 ==> At(s, i, pattern)
    ensures forall j :: i < j <= from ==> !At(s, j, pattern)
    decreases from + 1
  {
    if from < 0 then -1 else if At(s, from, pattern) then from else RFind(s, pattern, from - 1)
  }

  function LastIndex(s: seq<byte>, pattern: seq<byte>): int {
    RFind(s, pattern, |s| - |pattern|)
  }

  datatype Located = Found(size: nat, offset: nat) | NotFound(site: Site)

  function Zip64Directory(data: seq<byte>, tail: seq<byte>): Located {
    var pos := LastIndex(tail, ZIP64_LOCATOR_SIGNATURE);
    if pos < 0 then NotFound(NoLocator)
    else if pos + 20 > |tail| then NotFound(ShortLocator)
    else
      var record := ReadAt(data, LE(tail[pos + 8..pos + 16]), 56);
      if |record| != 56 then NotFound(ShortZip64Record)
      else if record[..4] != ZIP64_END_SIGNATURE then NotFound(BadZip64Record)
      else Fitting(data, LE(record[40..48]), LE(record[48..56]))
  }

  function Fitting(data: seq<byte>, size: nat, offset: nat): Located {
    if offset > |data| || size > |data| - offset then NotFound(OutOfRange) else Found(size, offset)
  }

  function Tail(data: seq<byte>): seq<byte> { data[|data| - Min(|data|, TAIL_LIMIT)..] }

  function Locate(data: seq<byte>): Located {
    var tail := Tail(data);
    var pos := LastIndex(tail, END_SIGNATURE);
    if pos < 0 then NotFound(NoEndRecord)
    else if pos + 22 > |tail| then NotFound(ShortEndRecord)
    else
      var size, offset := LE(tail[pos + 12..pos + 16]), LE(tail[pos + 16..pos + 20]);
      if size == UNSET_32 || offset == UNSET_32 then Zip64Directory(data, tail) else Fitting(data, size, offset)
  }

  function ScanOf(data: seq<byte>, located: Located): Scan {
    match located
    case NotFound(site) => Scan(Corrupt(site), [])
    case Found(size, offset) => Walk(data, offset, size, 0)
  }

  function ScanNames(data: seq<byte>): Scan { ScanOf(data, Locate(data)) }

  // ----- The scan as the program runs it ---------------------------------------------------------

  /** A binary file open for reading. */
  class Reader {
    const data: seq<byte>
    var pos: nat

    constructor (data: seq<byte>)
      ensures this.data == data && pos == 0
    {
      this.data, pos := data, 0;
    }

    method Seek(to: nat)
      modifies this
      ensures pos == to
    {
      pos := to;
    }

    method SeekBy(n: nat) returns (p: nat)
      modifies this
      ensures pos == p == old(pos) + n
    {
      pos := pos + n;
      p := pos;
    }

    method Read(n: nat) returns (r: seq<byte>)
      modifies this
      ensures r == ReadAt(data, old(pos), n)
      ensures pos == old(pos) + |r|
    {
      r := ReadAt(data, pos, n);
      pos := pos + |r|;
    }
  }

  method FindZip64Directory(fp: Reader, tail: seq<byte>) returns (located: Located)
    modifies fp
    ensures located == Zip64Directory(fp.data, tail)
  {
    var pos := LastIndex(tail, ZIP64_LOCATOR_SIGNATURE);
    if pos < 0 { return NotFound(NoLocator); }
    var locator := tail[pos..if pos + 20 <= |tail| then pos + 20 else |tail|];
    if |locator| < 20 { return NotFound(ShortLocator); }
    SliceOfSlice(tail, pos, pos + 20, 8, 16);
    hide LE; hide LastIndex; hide ReadAt;
    fp.Seek(LE(locator[8..16]));
    var record := fp.Read(56);
    if |record| != 56 { return NotFound(ShortZip64Record); }
    if record[..4] != ZIP64_END_SIGNATURE { return NotFound(BadZip64Record); }
    var size, offset := LE(record[40..48]), LE(record[48..56]);
    if offset > |fp.data| || size > |fp.data| - offset { return NotFound(OutOfRange); }
    located := Found(size, offset);
  }

  method FindDirectory(fp: Reader) returns (located: Located)
    modifies fp
    ensures located == Locate(fp.data)
  {
    var archiveSize := |fp.data|;
    var tailSize := Min(archiveSize, TAIL_LIMIT);
    fp.Seek(archiveSize - tailSize);
    var tail := fp.Read(tailSize);
    assert tail == Tail(fp.data);
    var pos := LastIndex(tail, END_SIGNATURE);
    if pos < 0 { return NotFound(NoEndRecord); }
    var record := tail[pos..if pos + 22 <= |tail| then pos + 22 else |tail|];
    if |record| < 22 { return NotFound(ShortEndRecord); }
    SliceOfSlice(tail, pos, pos + 22, 12, 16);
    SliceOfSlice(tail, pos, pos + 22, 16, 20);
    hide LE; hide LastIndex; hide Tail; hide Zip64Directory;
    var size, offset := LE(record[12..16]), LE(record[16..20]);
    if size == UNSET_32 || offset == UNSET_32 {
      located := FindZip64Directory(fp, tail);
    } else if offset > archiveSize || size > archiveSize - offset {
      located := NotFound(OutOfRange);
    } else {
      located := Found(size, offset);
    }
  }

  /** The body of the walk's loop: reads one entry and leaves the file position behind it. */
  method ReadEntry(fp: Reader, offset: nat, consumed: nat) returns (step: Step)
    requires fp.pos == offset + consumed
    modifies fp
    ensures step == StepAt(fp.data, offset + consumed)
    ensures step.Next? ==> fp.pos == offset + consumed + step.size
  {
    var header := fp.Read(46);
    if |header| < 46 || header[..4] != HEADER_SIGNATURE { return Bad(BadHeader); }
    var nameLength, extraLength, commentLength := LE(header[28..30]), LE(header[30..32]), LE(header[32..34]);
    var rawName := fp.Read(nameLength);
    if |rawName| != nameLength { return Bad(ShortName); }
    if 0 in rawName { return Nul(rawName); }
    var nextEntry := offset + consumed + 46 + nameLength + extraLength + commentLength;
    var at := fp.SeekBy(extraLength + commentLength);
    if at != nextEntry { return Bad(SeekMismatch); }
    step := Next(rawName, 46 + nameLength + extraLength + commentLength);
  }

  /** _reject_unsafe_zip_raw_names. The check of the seek position is kept; the last postcondition
      says that it never fires. */
  method RejectUnsafeRawNames(fp: Reader) returns (verdict: Verdict, ghost visited: seq<seq<byte>>)
    modifies fp
    ensures Scan(verdict, visited) == ScanNames(fp.data)
    ensures verdict != Corrupt(SeekMismatch)
  {
    hide StepAt; hide Locate; hide Walk; hide Prefixed;
    visited := [];
    var located := FindDirectory(fp);
    NeverSeekMismatch(fp.data);
    if located.NotFound? { return Corrupt(located.site), []; }
    var size, offset := located.size, located.offset;
    fp.Seek(offset);
    var consumed: int := 0;
    WalkStart(fp.data, offset, size);
    while consumed < size
      invariant 0 <= consumed && fp.pos == offset + consumed
      invariant Prefixed(visited, Walk(fp.data, offset, size, consumed)) == Walk(fp.data, offset, size, 0)
      decreases size - consumed
    {
      WalkStep(fp.data, offset, size, consumed, visited);
      var step := ReadEntry(fp, offset, consumed);
      match step
      case Bad(site) => return Corrupt(site), visited;
      case Nul(name) => return NulName(name), visited + [name];
      case Next(name, n) => visited, consumed := visited + [name], consumed + n;
    }
    WalkEnd(fp.data, offset, size, consumed, visited);
    if consumed != size { return Corrupt(SizeMismatch), visited; }
    verdict := Accepted;
  }

  function Prefixed(names: seq<seq<byte>>, scan: Scan): Scan {
    scan.(visited := names + scan.visited)
  }

  lemma {:induction false} WalkStart(data: seq<byte>, offset: nat, size: nat)
    ensures Prefixed([], Walk(data, offset, size, 0)) == Walk(data, offset, size, 0)
  {
    hide Walk;
  }

  lemma {:induction false} WalkEnd(data: seq<byte>, offset: nat, size: nat, consumed: nat, visited: seq<seq<byte>>)
    requires consumed >= size
    ensures Prefixed(visited, Walk(data, offset, size, consumed))
         == Scan(if consumed == size then Accepted else Corrupt(SizeMismatch), visited)
  {
    hide StepAt;
  }

  /** One round of the walk, with the names visited so far in front. */
  lemma {:induction false} WalkStep(data: seq<byte>, offset: nat, size: nat, consumed: nat, visited: seq<seq<byte>>)
    requires consumed < size
    ensures
      var scan := Prefixed(visited, Walk(data, offset, size, consumed));
      match StepAt(data, offset + consumed)
      case Bad(site) => scan == Scan(Corrupt(site), visited)
      case Nul(name) => scan == Scan(NulName(name), visited + [name])
      case Next(name, n) => scan == Prefixed(visited + [name], Walk(data, offset, size, consumed + n))
  {
    hide StepAt;
    var step := StepAt(data, offset + consumed);
    if step.Next? {
      var rest := Walk(data, offset, size, consumed + step.size);
      assert visited + ([step.name] + rest.visited) == (visited + [step.name]) + rest.visited;
    }
  }

  lemma {:induction false} NeverSeekMismatch(data: seq<byte>)
    ensures ScanNames(data).verdict != Corrupt(SeekMismatch)
  {
    hide StepAt; hide Zip64Directory;
    match Locate(data)
    case NotFound(_) => LocateNeverSeeks(data);
    case Found(size, offset) => WalkNeverSeekMismatch(data, offset, size, 0);
  }

  lemma {:induction false} LocateNeverSeeks(data: seq<byte>)
    ensures Locate(data) != NotFound(SeekMismatch)
  {
  }

  lemma {:induction false} WalkNeverSeekMismatch(data: seq<byte>, offset: nat, size: nat, consumed: nat)
    ensures Walk(data, offset, size, consumed).verdict != Corrupt(SeekMismatch)
    decreases Max(size - consumed, 0)
  {
    hide StepAt;
    if consumed < size {
      var step := StepAt(data, offset + consumed);
      if step.Next? { WalkNeverSeekMismatch(data, offset, size, consumed + step.size); }
    }
  }

  // ----- Round trip ------------------------------------------------------------------------------

  lemma {:induction false} HeaderFields(e: Entry)
    requires e.Valid()
    ensures |e.Header()| == 46 && IsHeader(e.Header())
    ensures NameLength(e.Header()) == |e.name|
    ensures ExtraLength(e.Header()) == |e.extra|
    ensures CommentLength(e.Header()) == |e.comment|
  {
    var h := e.Header();
    assert Pow256(2) == 0x10000 by { assert Pow256(1) == 256; }
    assert h[28..30] == EncodeLE(|e.name|, 2);
    assert h[30..32] == EncodeLE(|e.extra|, 2);
    assert h[32..34] == EncodeLE(|e.comment|, 2);
    DecodeEncode(|e.name|, 2);
    DecodeEncode(|e.extra|, 2);
    DecodeEncode(|e.comment|, 2);
  }

  lemma {:induction false} SliceOfSlice(data: seq<byte>, p: nat, q: nat, i: nat, j: nat)
    requires p <= q <= |data| && i <= j <= q - p
    ensures data[p..q][i..j] == data[p + i..p + j]
  {
    var a, b := data[p..q][i..j], data[p + i..p + j];
    assert |a| == |b|;
    forall k | 0 <= k < |a| ensures a[k] == b[k] {
      assert a[k] == data[p..q][i + k] == data[p + i + k];
    }
  }

  lemma {:induction false} AppendInjective(a: seq<byte>, b: seq<byte>, c: seq<byte>, d: seq<byte>)
    requires |a| == |c| && a + b == c + d
    ensures a == c && b == d
  {
    assert a == (a + b)[..|a|] && c == (c + d)[..|c|];
    assert b == (a + b)[|a|..] && d == (c + d)[|c|..];
  }

  lemma {:induction false} EncodeParts(e: Entry)
    requires e.Valid()
    ensures |e.Encode()| == e.Size()
    ensures e.Encode()[..46] == e.Header() && e.Encode()[46..46 + |e.name|] == e.name
  {
    HeaderFields(e);
    hide Entry.Header;
  }

  lemma {:induction false} StepEncoded(data: seq<byte>, pos: nat, e: Entry)
    requires e.Valid() && pos + e.Size() <= |data| && data[pos..pos + e.Size()] == e.Encode()
    ensures StepAt(data, pos) == if 0 in e.name then Nul(e.name) else Next(e.name, e.Size())
  {
    HeaderFields(e);
    EncodeParts(e);
    SliceOfSlice(data, pos, pos + e.Size(), 0, 46);
    SliceOfSlice(data, pos, pos + e.Size(), 46, 46 + |e.name|);
    hide Entry.Header; hide Entry.Encode; hide NameLength; hide ExtraLength; hide CommentLength; hide IsHeader;
    assert ReadAt(data, pos, 46) == e.Header();
    assert ReadAt(data, pos + 46, |e.name|) == e.name;
  }

  /** The scan of a directory that holds just these entries: it visits their names in order and
      refuses the first one with a NUL. */
  function EncodedScan(entries: seq<Entry>): Scan {
    var names := NamesUntilNul(entries);
    Scan(if NoNul(entries) then Accepted else NulName(if names == [] then [] else names[|names| - 1]), names)
  }

  lemma {:induction false} EncodedStep(e: Entry, rest: seq<Entry>)
    ensures EncodedScan([e] + rest) ==
      if 0 in e.name then Scan(NulName(e.name), [e.name])
      else EncodedScan(rest).(visited := [e.name] + EncodedScan(rest).visited)
  {
    assert NoNul([]);
    hide NoNul;
    assert ([e] + rest)[1..] == rest;
  }

  lemma {:induction false} EncodedEmpty(data: seq<byte>, offset: nat, size: nat)
    ensures |EncodeAll([])| == 0 && EncodedScan([]) == Walk(data, offset, size, size) == Scan(Accepted, [])
  {
    hide StepAt;
    assert NoNul([]);
  }

  lemma {:induction false} WalkUnfold(data: seq<byte>, offset: nat, size: nat, consumed: nat)
    requires consumed < size
    ensures Walk(data, offset, size, consumed) ==
      match StepAt(data, offset + consumed)
      case Bad(site) => Scan(Corrupt(site), [])
      case Nul(name) => Scan(NulName(name), [name])
      case Next(name, n) =>
        var rest := Walk(data, offset, size, consumed + n);
        rest.(visited := [name] + rest.visited)
  {
    hide StepAt;
  }

  lemma {:induction false} EncodeAllCons(e: Entry, rest: seq<Entry>)
    requires e.Valid()
    ensures EncodeAll([e] + rest) == e.Encode() + EncodeAll(rest)
    ensures |EncodeAll([e] + rest)| == e.Size() + |EncodeAll(rest)|
  {
    assert ([e] + rest)[1..] == rest;
    EncodeParts(e);
  }

  lemma {:induction false} WalkEncoded(data: seq<byte>, offset: nat, size: nat, consumed: nat, entries: seq<Entry>)
    requires AllValid(entries) && offset + size <= |data|
    requires consumed + |EncodeAll(entries)| == size
    requires data[offset + consumed..offset + size] == EncodeAll(entries)
    ensures Walk(data, offset, size, consumed) == EncodedScan(entries)
    decreases |entries|
  {
    if entries == [] {
      hide *;
      EncodedEmpty(data, offset, size);
    } else {
      hide StepAt; hide Walk; hide Entry.Encode; hide Entry.Header; hide EncodeAll; hide EncodedScan; hide Entry.Valid;
      var e, rest := entries[0], entries[1..];
      assert entries == [e] + rest && e in entries;
      assert AllValid(rest) by { assert forall x :: x in rest ==> x in entries; }
      hide AllValid;
      var p, q, r := offset + consumed, offset + consumed + e.Size(), offset + size;
      EncodeAllCons(e, rest);
      EncodeParts(e);
      AppendInjective(data[p..q], data[q..r], e.Encode(), EncodeAll(rest));
      StepEncoded(data, p, e);
      WalkUnfold(data, offset, size, consumed);
      EncodedStep(e, rest);
      if 0 !in e.name {
        WalkEncoded(data, offset, size, consumed + e.Size(), rest);
      }
    }
  }

  /** The entry that one successful step read. */
  function DecodeEntry(data: seq<byte>, pos: nat): (e: Entry)
    requires StepAt(data, pos).Next? && pos + StepAt(data, pos).size <= |data|
  {
    var header := data[pos..pos + 46];
    var n, x, c := NameLength(header), ExtraLength(header), CommentLength(header);
    var body := data[pos + 46..pos + 46 + n + x + c];
    Entry(header[4..28], header[34..46], body[..n], body[n..n + x], body[n + x..])
  }

  lemma {:induction false} NextParts(data: seq<byte>, pos: nat)
    requires StepAt(data, pos).Next? && pos + StepAt(data, pos).size <= |data|
    ensures
      var header := data[pos..pos + 46];
      IsHeader(header)
        && StepAt(data, pos).size == 46 + NameLength(header) + ExtraLength(header) + CommentLength(header)
      && StepAt(data, pos).name == data[pos + 46..pos + 46 + NameLength(header)] && 0 !in StepAt(data, pos).name
  {
    assert data[pos..pos + 46] == ReadAt(data, pos, 46);
    hide IsHeader; hide NameLength; hide ExtraLength; hide CommentLength;
  }

  lemma {:induction false} DecodedBody(data: seq<byte>, pos: nat)
    requires StepAt(data, pos).Next? && pos + StepAt(data, pos).size <= |data|
    ensures
      var e, step := DecodeEntry(data, pos), StepAt(data, pos);
      e.name == step.name && 0 !in e.name && e.Size() == step.size
      && e.name + e.extra + e.comment == data[pos + 46..pos + step.size]
  {
    NextParts(data, pos);
    hide StepAt; hide IsHeader; hide NameLength; hide ExtraLength; hide CommentLength;
    var header := data[pos..pos + 46];
    var n, x, c := NameLength(header), ExtraLength(header), CommentLength(header);
    var body := data[pos + 46..pos + 46 + n + x + c];
    assert DecodeEntry(data, pos) == Entry(header[4..28], header[34..46], body[..n], body[n..n + x], body[n + x..]);
    hide *;
    SliceOfSlice(data, pos + 46, pos + 46 + n + x + c, 0, n);
    BodyParts(header[4..28], header[34..46], body, n, x);
  }

  lemma {:induction false} BodyParts(head: seq<byte>, attributes: seq<byte>, body: seq<byte>, n: nat, x: nat)
    requires n + x <= |body|
    ensures var e := Entry(head, attributes, body[..n], body[n..n + x], body[n + x..]);
      e.Size() == 46 + |body| && e.name + e.extra + e.comment == body
  {
    ThreeParts(body, n, n + x);
  }

  lemma {:induction false} DecodedHeader(data: seq<byte>, pos: nat)
    requires StepAt(data, pos).Next? && pos + StepAt(data, pos).size <= |data|
    ensures DecodeEntry(data, pos).Valid() && DecodeEntry(data, pos).Header() == data[pos..pos + 46]
  {
    NextParts(data, pos);
    hide StepAt; hide IsHeader; hide Entry.Header; hide NameLength; hide ExtraLength; hide CommentLength;
    var header := data[pos..pos + 46];
    var e := DecodeEntry(data, pos);
    HeaderParts(header, e.name, e.extra, e.comment);
  }

  lemma {:induction false} DecodedEntry(data: seq<byte>, pos: nat)
    requires StepAt(data, pos).Next? && pos + StepAt(data, pos).size <= |data|
    ensures
      var e, size := DecodeEntry(data, pos), StepAt(data, pos).size;
      e.Valid() && 0 !in e.name && e.Size() == size && e.Encode() == data[pos..pos + size]
      && e.name == StepAt(data, pos).name
  {
    DecodedBody(data, pos);
    DecodedHeader(data, pos);
    EncodeIs(DecodeEntry(data, pos));
    hide *;
  }

  lemma {:induction false} EncodeIs(e: Entry)
    ensures e.Encode() == e.Header() + (e.name + e.extra + e.comment)
  {
    hide Entry.Header;
    assert e.Header() + e.name + e.extra + e.comment == e.Header() + (e.name + e.extra + e.comment);
  }

  lemma {:induction false} ThreeParts(body: seq<byte>, i: nat, j: nat)
    requires i <= j <= |body|
    ensures body[..i] + body[i..j] + body[j..] == body
  {
  }

  lemma {:induction false} HeaderParts(header: seq<byte>, name: seq<byte>, extra: seq<byte>, comment: seq<byte>)
    requires IsHeader(header)
    requires |name| == NameLength(header) && |extra| == ExtraLength(header) && |comment| == CommentLength(header)
    ensures NameLength(header) < 0x10000 && ExtraLength(header) < 0x10000 && CommentLength(header) < 0x10000
    ensures Entry(header[4..28], header[34..46], name, extra, comment).Header() == header
  {
    SmallPowers();
    EncodeDecode(header[28..30]);
    EncodeDecode(header[30..32]);
    EncodeDecode(header[32..34]);
    hide EncodeLE; hide LE; hide Pow256;
  }

  /** A walk that accepts has read a directory: some entries without NUL, laid out back to back. */
  lemma {:induction false} WalkAccepted(data: seq<byte>, offset: nat, size: nat, consumed: nat)
    returns (entries: seq<Entry>)
    requires offset + size <= |data| && consumed <= size
    requires Walk(data, offset, size, consumed).verdict == Accepted
    ensures AllValid(entries) && NoNul(entries)
    ensures EncodeAll(entries) == data[offset + consumed..offset + size]
    decreases size - consumed
  {
    hide StepAt; hide DecodeEntry; hide Entry.Encode; hide Entry.Valid;
    if consumed == size { return []; }
    var step := StepAt(data, offset + consumed);
    var rest := WalkAccepted(data, offset, size, consumed + step.size);
    DecodedEntry(data, offset + consumed);
    var e := DecodeEntry(data, offset + consumed);
    entries := [e] + rest;
    assert entries[1..] == rest;
    assert data[offset + consumed..offset + size]
        == data[offset + consumed..offset + consumed + step.size] + data[offset + consumed + step.size..offset + size];
  }

  ghost predicate IsDirectory(entries: seq<Entry>, region: seq<byte>) {
    AllValid(entries) && NoNul(entries) && EncodeAll(entries) == region
  }

  /** The bytes are a list of entries laid out back to back, none of whose names holds a NUL. */
  ghost predicate HoldsDirectory(region: seq<byte>) { exists entries :: IsDirectory(entries, region) }

  lemma {:induction false} DirectoryIsAccepted(data: seq<byte>, offset: nat, size: nat)
    requires offset + size <= |data| && HoldsDirectory(data[offset..offset + size])
    ensures Walk(data, offset, size, 0).verdict == Accepted
  {
    var entries :| IsDirectory(entries, data[offset..offset + size]);
    WalkEncoded(data, offset, size, 0, entries);
    hide Walk; hide AllValid; hide NoNul; hide EncodeAll;
  }

  lemma {:induction false} AcceptedIsDirectory(data: seq<byte>, offset: nat, size: nat)
    requires offset + size <= |data| && Walk(data, offset, size, 0).verdict == Accepted
    ensures HoldsDirectory(data[offset..offset + size])
  {
    var entries := WalkAccepted(data, offset, size, 0);
    hide Walk; hide AllValid; hide NoNul; hide EncodeAll;
    assert IsDirectory(entries, data[offset..offset + size]);
  }

  lemma {:induction false} WalkDecides(data: seq<byte>, offset: nat, size: nat)
    requires offset + size <= |data|
    ensures Walk(data, offset, size, 0).verdict == Accepted <==> HoldsDirectory(data[offset..offset + size])
  {
    hide *;
    if HoldsDirectory(data[offset..offset + size]) {
      DirectoryIsAccepted(data, offset, size);
    } else if Walk(data, offset, size, 0).verdict == Accepted {
      AcceptedIsDirectory(data, offset, size);
    }
  }

  /** For a file whose directory was located: the scan accepts exactly when the directory is a list
      of entries laid out back to back, none of whose names holds a NUL, that ends on its size. */
  lemma {:induction false} AcceptsDirectories(data: seq<byte>)
    requires Locate(data).Found?
    ensures Locate(data).offset + Locate(data).size <= |data|
    ensures ScanNames(data).verdict == Accepted <==>
      HoldsDirectory(data[Locate(data).offset..Locate(data).offset + Locate(data).size])
  {
    hide *;
    LocatedFits(data);
    WalkDecides(data, Locate(data).offset, Locate(data).size);
  }

  lemma {:induction false} LocatedFits(data: seq<byte>)
    requires Locate(data).Found?
    ensures Locate(data).offset + Locate(data).size <= |data|
    ensures ScanNames(data) == Walk(data, Locate(data).offset, Locate(data).size, 0)
  {
    hide Walk;
  }

  // ----- Whole archives --------------------------------------------------------------------------

  /** An end of central directory record: the fields the scan skips are kept as raw bytes. */
  datatype EndRecord = EndRecord(disks: seq<byte>, size: nat, offset: nat, commentLength: seq<byte>, comment: seq<byte>)
  {
    ghost predicate Valid() {
      |disks| == 8 && size < 0x1_0000_0000 && offset < 0x1_0000_0000 && |commentLength| == 2 && |comment| <= 0xFFFF
    }

    function Encode(): (b: seq<byte>)
      requires |disks| == 8 && |commentLength| == 2
      ensures |b| == 22 + |comment|
    {
      END_SIGNATURE + disks + EncodeLE(size, 4) + EncodeLE(offset, 4) + commentLength + comment
    }
  }

  /** The signature of a record occurs in what follows its first byte. */
  ghost predicate Repeats(signature: seq<byte>, record: seq<byte>) {
    exists j :: j > 0 && At(record, j, signature)
  }

  lemma {:induction false} FindSuffix(before: seq<byte>, suffix: seq<byte>, pattern: seq<byte>)
    requires At(suffix, 0, pattern) && !Repeats(pattern, suffix)
    ensures LastIndex(before + suffix, pattern) == |before|
  {
    var s := before + suffix;
    assert s[|before|..|before| + |pattern|] == suffix[..|pattern|];
    assert At(s, |before|, pattern);
    var i := LastIndex(s, pattern);
    if i > |before| {
      assert s[i..i + |pattern|] == suffix[i - |before|..i - |before| + |pattern|];
      assert At(suffix, i - |before|, pattern);
    }
  }

  lemma {:induction false} FindNone(suffix: seq<byte>, skipped: nat, pattern: seq<byte>)
    requires 0 < skipped <= |suffix| && |pattern| > 0 && !Repeats(pattern, suffix)
    ensures LastIndex(suffix[skipped..], pattern) == -1
  {
    var s := suffix[skipped..];
    var i := LastIndex(s, pattern);
    if i >= 0 {
      assert s[i..i + |pattern|] == suffix[skipped + i..skipped + i + |pattern|];
      assert At(suffix, skipped + i, pattern);
    }
  }

  /** The tail holds any suffix of the file that fits into it. */
  lemma {:induction false} TailHolds(before: seq<byte>, suffix: seq<byte>)
    ensures |suffix| <= TAIL_LIMIT ==> exists rest :: Tail(before + suffix) == rest + suffix
    ensures |suffix| > TAIL_LIMIT ==> Tail(before + suffix) == suffix[|suffix| - TAIL_LIMIT..]
  {
    var data := before + suffix;
    var n := |data| - Min(|data|, TAIL_LIMIT);
    if |suffix| <= TAIL_LIMIT {
      assert Tail(data) == before[n..] + suffix;
    } else {
      assert data[n..] == suffix[n - |before|..];
    }
  }

  lemma {:induction false} EndRecordFields(e: EndRecord)
    requires e.Valid()
    ensures At(e.Encode(), 0, END_SIGNATURE)
    ensures LE(e.Encode()[12..16]) == e.size && LE(e.Encode()[16..20]) == e.offset
  {
    var b := e.Encode();
    SmallPowers();
    DecodeEncode(e.size, 4);
    DecodeEncode(e.offset, 4);
    hide EncodeLE; hide LE;
    assert b[12..16] == EncodeLE(e.size, 4);
    assert b[16..20] == EncodeLE(e.offset, 4);
    assert b[0..4] == END_SIGNATURE;
  }

  lemma {:induction false} SmallPowers()
    ensures Pow256(2) == 0x10000 && Pow256(4) == 0x1_0000_0000
  {
    assert Pow256(2) == 0x10000 by { assert Pow256(1) == 256; }
    assert Pow256(3) == 0x100_0000;
  }

  /** The end record is found wherever the archive ends with it. */
  lemma {:induction false} EndRecordFound(before: seq<byte>, e: EndRecord) returns (rest: seq<byte>)
    requires e.Valid() && !Repeats(END_SIGNATURE, e.Encode())
    ensures Tail(before + e.Encode()) == rest + e.Encode()
    ensures LastIndex(rest + e.Encode(), END_SIGNATURE) == |rest|
    ensures LE((rest + e.Encode())[|rest| + 12..|rest| + 16]) == e.size
    ensures LE((rest + e.Encode())[|rest| + 16..|rest| + 20]) == e.offset
  {
    TailHolds(before, e.Encode());
    EndRecordFields(e);
    hide EndRecord.Encode; hide LE; hide LastIndex; hide Tail; hide Repeats; hide At;
    rest :| Tail(before + e.Encode()) == rest + e.Encode();
    FindSuffix(rest, e.Encode(), END_SIGNATURE);
    SliceOfSum(rest, e.Encode(), 12, 16);
    SliceOfSum(rest, e.Encode(), 16, 20);
  }

  lemma {:induction false} SliceOfSum(a: seq<byte>, b: seq<byte>, i: nat, j: nat)
    requires i <= j <= |b|
    ensures (a + b)[|a| + i..|a| + j] == b[i..j]
  {
  }

  /** What Locate makes of the bytes from an end signature to the end of the file. */
  function FromEndRecord(data: seq<byte>, record: seq<byte>): Located {
    if |record| < 22 then NotFound(ShortEndRecord)
    else
      var size, offset := LE(record[12..16]), LE(record[16..20]);
      if size == UNSET_32 || offset == UNSET_32 then Zip64Directory(data, Tail(data)) else Fitting(data, size, offset)
  }

  lemma {:induction false} FindInSuffix(before: seq<byte>, suffix: seq<byte>, pattern: seq<byte>)
    requires LastIndex(suffix, pattern) >= 0
    ensures LastIndex(before + suffix, pattern) == |before| + LastIndex(suffix, pattern)
  {
    var s, j := before + suffix, LastIndex(suffix, pattern);
    assert s[|before| + j..|before| + j + |pattern|] == suffix[j..j + |pattern|];
    assert At(s, |before| + j, pattern);
    var i := LastIndex(s, pattern);
    if i > |before| + j {
      assert s[i..i + |pattern|] == suffix[i - |before|..i - |before| + |pattern|];
      assert At(suffix, i - |before|, pattern);
    }
  }

  /** Whatever the comment holds, the last end signature in it or of its record decides: the fields behind that
      signature are taken for the end record's. */
  lemma {:induction false} LastSignatureDecides(before: seq<byte>, e: EndRecord)
    requires e.Valid()
    ensures LastIndex(e.Encode(), END_SIGNATURE) >= 0
    ensures Locate(before + e.Encode())
      == FromEndRecord(before + e.Encode(), e.Encode()[LastIndex(e.Encode(), END_SIGNATURE)..])
  {
    hide *;
    RecordFitsTail(e);
    var data, record := before + e.Encode(), e.Encode();
    TailHolds(before, record);
    EndRecordFields(e);
    LastIndexFrom(record, 0, END_SIGNATURE);
    var j := LastIndex(record, END_SIGNATURE);
    var rest :| Tail(data) == rest + record;
    FindInSuffix(rest, record, END_SIGNATURE);
    LocateByTail(data, rest + record);
    assert (rest + record)[|rest| + j..] == record[j..];
  }

  lemma {:induction false} RecordFitsTail(e: EndRecord)
    requires e.Valid()
    ensures |e.disks| == 8 && |e.commentLength| == 2 && |e.Encode()| <= TAIL_LIMIT
  {
    hide EndRecord.Encode;
  }

  lemma {:induction false} LastIndexFrom(s: seq<byte>, i: nat, pattern: seq<byte>)
    requires At(s, i, pattern)
    ensures i <= LastIndex(s, pattern) <= |s| - |pattern|
  {
  }

  lemma {:induction false} LocateByTail(data: seq<byte>, tail: seq<byte>)
    requires tail == Tail(data) && LastIndex(tail, END_SIGNATURE) >= 0
    ensures Locate(data) == FromEndRecord(data, tail[LastIndex(tail, END_SIGNATURE)..])
  {
    var pos := LastIndex(tail, END_SIGNATURE);
    LastIndexInside(tail, END_SIGNATURE);
    hide LE; hide LastIndex; hide Zip64Directory; hide Fitting; hide Tail;
    if pos + 22 <= |tail| { FieldsBehind(tail, pos); }
  }

  lemma {:induction false} LastIndexInside(s: seq<byte>, pattern: seq<byte>)
    ensures LastIndex(s, pattern) <= |s|
  {
  }

  lemma {:induction false} FieldsBehind(tail: seq<byte>, pos: nat)
    requires pos + 22 <= |tail|
    ensures tail[pos..][12..16] == tail[pos + 12..pos + 16] && tail[pos..][16..20] == tail[pos + 16..pos + 20]
  {
  }

  /** So an archive whose comment ends with the end signature is refused, whatever it holds. */
  lemma {:induction false} CommentEndsInSignature(before: seq<byte>, e: EndRecord)
    requires e.Valid() && |e.comment| >= 4 && e.comment[|e.comment| - 4..] == END_SIGNATURE
    ensures Locate(before + e.Encode()) == NotFound(ShortEndRecord)
  {
    LastSignatureDecides(before, e);
    var record := e.Encode();
    assert record[|record| - 4..|record|] == e.comment[|e.comment| - 4..];
    assert At(record, |record| - 4, END_SIGNATURE);
  }

  /** What is located by the last end signature in an end record and its comment. */
  function ByLastSignature(data: seq<byte>, record: seq<byte>): Located
    requires LastIndex(record, END_SIGNATURE) >= 0
  {
    FromEndRecord(data, record[LastIndex(record, END_SIGNATURE)..])
  }

  /** An archive in the plain format: the directory's size and offset are read off the end record, unless its comment
      repeats the end signature. */
  lemma {:induction false} LocatesPlain(before: seq<byte>, e: EndRecord)
    requires e.Valid() && e.size != UNSET_32 && e.offset != UNSET_32 && e.offset + e.size <= |before|
    ensures LastIndex(e.Encode(), END_SIGNATURE) >= 0
    ensures Locate(before + e.Encode())
         == if Repeats(END_SIGNATURE, e.Encode()) then ByLastSignature(before + e.Encode(), e.Encode())
            else Found(e.size, e.offset)
  {
    LastSignatureDecides(before, e);
    EndRecordFields(e);
    var record := e.Encode();
    LastIndexFrom(record, 0, END_SIGNATURE);
    assert !Repeats(END_SIGNATURE, record) ==> LastIndex(record, END_SIGNATURE) == 0;
    hide EndRecord.Encode; hide LE; hide LastIndex; hide Tail; hide Locate; hide Repeats; hide At; hide Zip64Directory;
    assert record[0..] == record;
  }

  /** Round trip for plain archives: entries laid out back to back, then the end record. The scan visits their names
      in order and accepts exactly when none of them holds a NUL; if the comment repeats the end signature, it reads
      what the last one leads to instead. */
  lemma {:induction false} PlainRoundTrip(before: seq<byte>, entries: seq<Entry>, between: seq<byte>, e: EndRecord)
    requires AllValid(entries) && e.Valid()
    requires e.offset == |before| && e.size == |EncodeAll(entries)|
    requires e.size != UNSET_32 && e.offset != UNSET_32
    ensures LastIndex(e.Encode(), END_SIGNATURE) >= 0
    ensures var data := before + EncodeAll(entries) + between + e.Encode();
      ScanNames(data) == if Repeats(END_SIGNATURE, e.Encode()) then ScanOf(data, ByLastSignature(data, e.Encode()))
                         else EncodedScan(entries)
  {
    hide EndRecord.Encode; hide Locate; hide Walk; hide EncodedScan; hide AllValid; hide EncodeAll; hide Repeats;
    var front := before + EncodeAll(entries) + between;
    LocatesPlain(front, e);
    var data := front + e.Encode();
    assert data[|before|..|before| + |EncodeAll(entries)|] == EncodeAll(entries);
    WalkEncoded(data, |before|, |EncodeAll(entries)|, 0, entries);
  }

  /** The ZIP64 end record and its locator. */
  datatype Zip64End = Zip64End(fields: seq<byte>, size: nat, offset: nat)
  {
    ghost predicate Valid() { |fields| == 36 && size < Pow256(8) && offset < Pow256(8) }

    function Encode(): (b: seq<byte>)
      requires |fields| == 36
      ensures |b| == 56
    {
      ZIP64_END_SIGNATURE + fields + EncodeLE(size, 8) + EncodeLE(offset, 8)
    }
  }

  function Locator(disk: seq<byte>, recordOffset: nat, disks: seq<byte>): (b: seq<byte>)
    requires |disk| == 4 && |disks| == 4
    ensures |b| == 20
  {
    ZIP64_LOCATOR_SIGNATURE + disk + EncodeLE(recordOffset, 8) + disks
  }

  lemma {:induction false} Zip64Fields(z: Zip64End, disk: seq<byte>, recordOffset: nat, disks: seq<byte>)
    requires z.Valid() && |disk| == 4 && |disks| == 4 && recordOffset < Pow256(8)
    ensures z.Encode()[..4] == ZIP64_END_SIGNATURE
    ensures LE(z.Encode()[40..48]) == z.size && LE(z.Encode()[48..56]) == z.offset
    ensures At(Locator(disk, recordOffset, disks), 0, ZIP64_LOCATOR_SIGNATURE)
    ensures LE(Locator(disk, recordOffset, disks)[8..16]) == recordOffset
  {
    DecodeEncode(z.size, 8);
    DecodeEncode(z.offset, 8);
    DecodeEncode(recordOffset, 8);
    hide EncodeLE; hide LE;
    assert z.Encode()[40..48] == EncodeLE(z.size, 8);
    assert z.Encode()[48..56] == EncodeLE(z.offset, 8);
    assert Locator(disk, recordOffset, disks)[8..16] == EncodeLE(recordOffset, 8);
    assert Locator(disk, recordOffset, disks)[0..4] == ZIP64_LOCATOR_SIGNATURE;
  }

  /** A ZIP64 archive is located exactly when its comment leaves room for the locator in the tail:
      the tail is as long as the longest plain end record, 20 bytes too short for the locator in
      front of a longest one. */
  lemma {:induction false} LocatesZip64(before: seq<byte>, z: Zip64End, disk: seq<byte>, disks: seq<byte>, e: EndRecord)
    requires z.Valid() && |disk| == 4 && |disks| == 4 && |before| < Pow256(8)
    requires e.Valid() && !Repeats(END_SIGNATURE, e.Encode())
    requires e.size == UNSET_32 || e.offset == UNSET_32
    requires !Repeats(ZIP64_LOCATOR_SIGNATURE, Locator(disk, |before|, disks) + e.Encode())
    requires z.offset + z.size <= |before|
    ensures Locate(before + z.Encode() + (Locator(disk, |before|, disks) + e.Encode()))
         == if |e.comment| <= 65515 then Found(z.size, z.offset) else NotFound(NoLocator)
  {
    var locator := Locator(disk, |before|, disks);
    var suffix := locator + e.Encode();
    var front := before + z.Encode();
    var data := front + suffix;
    assert data == front + locator + e.Encode();
    var rest := EndRecordFound(front + locator, e);
    Zip64Fields(z, disk, |before|, disks);
    TailHolds(front, suffix);
    var tail := rest + e.Encode();
    hide EndRecord.Encode; hide Zip64End.Encode; hide Locator; hide LE; hide LastIndex; hide Tail; hide Repeats;
    hide Zip64Directory;
    assert Locate(data) == Zip64Directory(data, tail);
    if |e.comment| <= 65515 {
      var rest64 :| Tail(data) == rest64 + suffix;
      LocatedThrough(data, before, z, locator, e.Encode(), rest64);
    } else {
      FindNone(suffix, |suffix| - TAIL_LIMIT, ZIP64_LOCATOR_SIGNATURE);
    }
  }

  lemma {:induction false} ZeroBytes(width: nat)
    ensures forall b :: b in EncodeLE(0, width) ==> b == 0
  {
    if width > 0 { ZeroBytes(width - 1); }
  }

  lemma {:induction false} FullBytes(n: nat, width: nat)
    requires n + 1 == Pow256(width)
    ensures forall b :: b in EncodeLE(n, width) ==> b == 255
  {
    if width > 0 { FullBytes(n / 256, width - 1); }
  }

  function Zeros(n: nat): (s: seq<byte>)
    ensures |s| == n && forall b :: b in s ==> b == 0
  {
    seq(n, _ => 0)
  }

  /** The sizes of an empty ZIP64 archive: the record, its locator, and the end record with a comment of n bytes. */
  function EmptyZip64(n: nat): (Zip64End, seq<byte>, EndRecord) {
    (Zip64End(Zeros(36), 0, 0), Locator(Zeros(4), 0, Zeros(4)), EndRecord(Zeros(8), UNSET_32, 0, Zeros(2), Zeros(n)))
  }

  lemma {:induction false} EmptyZip64Signatures(n: nat)
    requires n <= 0xFFFF
    ensures var (z, locator, e) := EmptyZip64(n);
      !Repeats(END_SIGNATURE, e.Encode()) && !Repeats(ZIP64_LOCATOR_SIGNATURE, locator + e.Encode())
  {
    var (z, locator, e) := EmptyZip64(n);
    var record := e.Encode();
    forall j | At(record, j, END_SIGNATURE) ensures record[j] == 0x50 { AtStart(record, j, END_SIGNATURE); }
    forall j | At(locator + record, j, ZIP64_LOCATOR_SIGNATURE)
      ensures (locator + record)[j] == 0x50 && (locator + record)[j + 2] == 6
    {
      AtStart(locator + record, j, ZIP64_LOCATOR_SIGNATURE);
    }
    forall j | 0 < j < |record| ensures record[j] != 0x50 { EmptyRecordByte(n, j); }
    forall j | 0 < j < |locator| ensures locator[j] != 0x50 { EmptyLocatorByte(j); }
    EmptyRecordStart(n);
    hide EndRecord.Encode; hide Locator; hide At;
    assert (locator + record)[22] == record[2];
  }

  lemma {:induction false} AtStart(s: seq<byte>, j: int, pattern: seq<byte>)
    requires At(s, j, pattern) && |pattern| == 4
    ensures 0 <= j <= |s| - 4 && s[j] == pattern[0] && s[j + 2] == pattern[2]
  {
    assert s[j..j + 4][0] == s[j] && s[j..j + 4][2] == s[j + 2];
  }

  lemma {:induction false} EmptyRecordStart(n: nat)
    ensures EmptyZip64(n).2.Encode()[2] == 5
  {
    hide EncodeLE;
  }

  lemma {:induction false} EmptyRecordByte(n: nat, j: nat)
    requires 0 < j < 22 + n
    ensures EmptyZip64(n).2.Encode()[j] != 0x50
  {
    SmallPowers();
    ZeroBytes(4);
    FullBytes(UNSET_32, 4);
    hide EncodeLE; hide Pow256;
    var e := EmptyZip64(n).2;
    var b := e.Encode();
    if j >= 22 { assert b[j] == e.comment[j - 22]; assert b[j] in e.comment; }
    else if j >= 20 { assert b[j] == e.commentLength[j - 20]; assert b[j] in e.commentLength; }
    else if j >= 16 { assert b[j] == EncodeLE(0, 4)[j - 16]; assert b[j] in EncodeLE(0, 4); }
    else if j >= 12 { assert b[j] == EncodeLE(UNSET_32, 4)[j - 12]; assert b[j] in EncodeLE(UNSET_32, 4); }
    else if j >= 4 { assert b[j] == e.disks[j - 4]; assert b[j] in e.disks; }
  }

  lemma {:induction false} EmptyLocatorByte(j: nat)
    requires 0 < j < 20
    ensures Locator(Zeros(4), 0, Zeros(4))[j] != 0x50
  {
    ZeroBytes(8);
    hide EncodeLE;
    var b := Locator(Zeros(4), 0, Zeros(4));
    if j >= 16 { assert b[j] == Zeros(4)[j - 16]; assert b[j] in Zeros(4); }
    else if j >= 8 { assert b[j] == EncodeLE(0, 8)[j - 8]; assert b[j] in EncodeLE(0, 8); }
    else if j >= 4 { assert b[j] == Zeros(4)[j - 4]; assert b[j] in Zeros(4); }
  }

  /** It does happen: an empty ZIP64 archive is located with a comment of 65515 bytes, and not with one more. */
  lemma {:induction false} EmptyZip64NotLocated()
    ensures var (z, locator, e) := EmptyZip64(65515); Locate([] + z.Encode() + (locator + e.Encode())) == Found(0, 0)
    ensures var (z, locator, e) := EmptyZip64(65516);
      Locate([] + z.Encode() + (locator + e.Encode())) == NotFound(NoLocator)
  {
    assert Pow256(8) > 0;
    EmptyZip64Signatures(65515);
    EmptyZip64Signatures(65516);
    LocatesZip64([], EmptyZip64(65515).0, Zeros(4), Zeros(4), EmptyZip64(65515).2);
    LocatesZip64([], EmptyZip64(65516).0, Zeros(4), Zeros(4), EmptyZip64(65516).2);
    hide Locate; hide Repeats; hide EndRecord.Encode; hide Zip64End.Encode; hide Locator; hide Pow256;
  }

  lemma {:induction false} LocatedThrough(data: seq<byte>, before: seq<byte>, z: Zip64End, locator: seq<byte>,
                                          end: seq<byte>, rest: seq<byte>)
    requires z.Valid() && |locator| == 20 && z.offset + z.size <= |before|
    requires data == before + z.Encode() + (locator + end)
    requires z.Encode()[..4] == ZIP64_END_SIGNATURE
    requires LE(z.Encode()[40..48]) == z.size && LE(z.Encode()[48..56]) == z.offset
    requires At(locator, 0, ZIP64_LOCATOR_SIGNATURE) && LE(locator[8..16]) == |before|
    requires !Repeats(ZIP64_LOCATOR_SIGNATURE, locator + end)
    ensures Zip64Directory(data, rest + (locator + end)) == Found(z.size, z.offset)
  {
    hide LE; hide LastIndex; hide Zip64End.Encode; hide Repeats;
    var suffix := locator + end;
    var tail := rest + suffix;
    assert suffix[0..4] == locator[0..4];
    FindSuffix(rest, suffix, ZIP64_LOCATOR_SIGNATURE);
    assert tail[|rest| + 8..|rest| + 16] == locator[8..16];
    assert data[|before|..|before| + 56] == z.Encode();
    assert ReadAt(data, |before|, 56) == z.Encode();
  }
}
