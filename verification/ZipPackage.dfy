// The plugin package: a stored ZIP archive written record by record, and a reader that starts from its last bytes.
module ZipPackage {
  import opened Common
  import opened Crc32

  type bytes = seq<byte>

  datatype Entry = Entry(name: bytes, data: bytes)
  datatype Failure = OutOfRange

  const LOCAL: nat := 0x04034b50
  const CENTRAL: nat := 0x02014b50
  const END: nat := 0x06054b50
  const VERSION: nat := 20
  const DATE: nat := 0x21

  // ---------------------------------------------------------------- little-endian fields

  function LE16(n: nat): (r: bytes)
    ensures |r| == 2
  {
    [n % 256, n / 256 % 256]
  }

  function LE32(n: nat): (r: bytes)
    ensures |r| == 4
  {
    [n % 256, n / 256 % 256, n / 65536 % 256, n / 16777216 % 256]
  }

  function Zeros(n: nat): (r: bytes)
    ensures |r| == n && forall i :: 0 <= i < n ==> r[i] == 0
  {
    seq(n, _ => 0)
  }

  function Read16(s: bytes, at: nat): nat
    requires at + 2 <= |s|
  {
    s[at] as nat + 256 * s[at + 1] as nat
  }

  function Read32(s: bytes, at: nat): nat
    requires at + 4 <= |s|
  {
    s[at] as nat + 256 * s[at + 1] as nat + 65536 * s[at + 2] as nat + 16777216 * s[at + 3] as nat
  }

  lemma {:induction false} Read16OfLE16(n: nat, s: bytes, at: nat)
    requires n < 0x1_0000 && at + 2 <= |s| && s[at..at + 2] == LE16(n)
    ensures Read16(s, at) == n
  {
    assert s[at] == s[at..at + 2][0] && s[at + 1] == s[at..at + 2][1];
  }

  /** The four digits to base 256 of a 32-bit number make up the number. */
  lemma {:induction false} FourDigits(n: nat)
    requires n < 0x1_0000_0000
    ensures n % 256 + 256 * (n / 256 % 256) + 65536 * (n / 65536 % 256) + 16777216 * (n / 16777216 % 256) == n
  {
    assert n / 65536 == n / 256 / 256 && n / 16777216 == n / 65536 / 256;
  }

  lemma {:induction false} Read32OfLE32(n: nat, s: bytes, at: nat)
    requires n < 0x1_0000_0000 && at + 4 <= |s| && s[at..at + 4] == LE32(n)
    ensures Read32(s, at) == n
  {
    FourDigits(n);
    assert s[at] == s[at..at + 4][0] && s[at + 1] == s[at..at + 4][1];
    assert s[at + 2] == s[at..at + 4][2] && s[at + 3] == s[at..at + 4][3];
  }

  // ---------------------------------------------------------------- records

  function LocalHeader(e: Entry): (r: bytes)
    ensures |r| == 30
  {
    LE32(LOCAL) + LE16(VERSION) + Zeros(6) + LE16(DATE) + LE32(Crc(e.data)) + LE32(|e.data|) + LE32(|e.data|)
    + LE16(|e.name|) + Zeros(2)
  }

  function CentralHeader(e: Entry, offset: nat): (r: bytes)
    ensures |r| == 46
  {
    LE32(CENTRAL) + LE16(VERSION) + LE16(VERSION) + Zeros(6) + LE16(DATE) + LE32(Crc(e.data)) + LE32(|e.data|)
    + LE32(|e.data|) + LE16(|e.name|) + Zeros(12) + LE32(offset)
  }

  function EndRecord(count: nat, size: nat, offset: nat): (r: bytes)
    ensures |r| == 22
  {
    LE32(END) + Zeros(4) + LE16(count) + LE16(count) + LE32(size) + LE32(offset) + Zeros(2)
  }

  function LocalRecord(e: Entry): (r: bytes)
    ensures |r| == 30 + |e.name| + |e.data|
  {
    LocalHeader(e) + e.name + e.data
  }

  function Locals(files: seq<Entry>): bytes
  {
    if files == [] then [] else LocalRecord(files[0]) + Locals(files[1..])
  }

  function Directory(files: seq<Entry>, offset: nat): bytes
  {
    if files == [] then []
    else CentralHeader(files[0], offset) + files[0].name + Directory(files[1..], offset + |LocalRecord(files[0])|)
  }

  function Archive(files: seq<Entry>): bytes
  {
    Locals(files) + Directory(files, 0) + EndRecord(|files|, |Directory(files, 0)|, |Locals(files)|)
  }

  predicate NamesFit(files: seq<Entry>)
  {
    forall i :: 0 <= i < |files| ==> |files[i].name| < 0x1_0000
  }

  /** What every field of the archive must hold: Node refuses to write a number that does not fit its field. */
  predicate Fits(files: seq<Entry>)
  {
    && |files| < 0x1_0000
    && |Locals(files)| < 0x1_0000_0000
    && |Directory(files, 0)| < 0x1_0000_0000
    && NamesFit(files)
  }

  // ---------------------------------------------------------------- writing

  function Padded(s: bytes, n: nat): bytes
    requires |s| <= n
  {
    if |s| == n then s else s + Zeros(n - |s|)
  }

  // Both writers know how much of the buffer is filled; everything after that is still zero.

  method WriteUInt16LE(a: array<byte>, v: nat, at: nat, ghost filled: nat) returns (ok: bool)
    requires filled <= at && at + 2 <= a.Length && a[filled..] == Zeros(a.Length - filled)
    modifies a
    ensures ok <==> v < 0x1_0000
    ensures ok ==> a[..at + 2] == Padded(old(a[..filled]), at) + LE16(v)
    ensures ok ==> a[at + 2..] == Zeros(a.Length - at - 2)
    ensures !ok ==> a[..] == old(a[..])
  {
    ok := v < 0x1_0000;
    if ok {
      assert forall i :: filled <= i < a.Length ==> a[i] == a[filled..][i - filled];
      a[at], a[at + 1] := v % 256, v / 256 % 256;
    }
  }

  method WriteUInt32LE(a: array<byte>, v: nat, at: nat, ghost filled: nat) returns (ok: bool)
    requires filled <= at && at + 4 <= a.Length && a[filled..] == Zeros(a.Length - filled)
    modifies a
    ensures ok <==> v < 0x1_0000_0000
    ensures ok ==> a[..at + 4] == Padded(old(a[..filled]), at) + LE32(v)
    ensures ok ==> a[at + 4..] == Zeros(a.Length - at - 4)
    ensures !ok ==> a[..] == old(a[..])
  {
    ok := v < 0x1_0000_0000;
    if ok {
      assert forall i :: filled <= i < a.Length ==> a[i] == a[filled..][i - filled];
      a[at], a[at + 1], a[at + 2], a[at + 3] := v % 256, v / 256 % 256, v / 65536 % 256, v / 16777216 % 256;
    }
  }

  method FillLocalStart(head: array<byte>, crc: nat)
    requires head.Length == 30 && head[..] == Zeros(30) && crc < 0x1_0000_0000
    modifies head
    ensures head[..18] == LE32(LOCAL) + LE16(VERSION) + Zeros(6) + LE16(DATE) + LE32(crc)
    ensures head[18..] == Zeros(12)
  {
    hide LE32, LE16, Zeros;
    assert head[0..] == Zeros(30) && head[..0] == [];
    var ok := WriteUInt32LE(head, 0x04034b50, 0, 0);
    assert head[..4] == LE32(LOCAL);
    ok := WriteUInt16LE(head, 20, 4, 4);
    ok := WriteUInt16LE(head, 0x21, 12, 6);
    ok := WriteUInt32LE(head, crc, 14, 14);
  }

  method BuildLocalHeader(e: Entry) returns (r: Result<bytes, Failure>)
    ensures r == if |e.data| < 0x1_0000_0000 && |e.name| < 0x1_0000 then Ok(LocalHeader(e)) else Err(OutOfRange)
  {
    hide Crc, LE32, LE16, Zeros;
    var crc := Crc32Of(e.data);
    var head := new byte[30](_ => 0);
    FillLocalStart(head, crc);
    var ok := WriteUInt32LE(head, |e.data|, 18, 18);
    if !ok {
      return Err(OutOfRange);
    }
    ok := WriteUInt32LE(head, |e.data|, 22, 22);
    ok := WriteUInt16LE(head, |e.name|, 26, 26);
    if !ok {
      return Err(OutOfRange);
    }
    assert head[..] == head[..28] + head[28..];
    r := Ok(head[..]);
  }

  method FillCentralStart(c: array<byte>, crc: nat)
    requires c.Length == 46 && c[..] == Zeros(46) && crc < 0x1_0000_0000
    modifies c
    ensures c[..20] == LE32(CENTRAL) + LE16(VERSION) + LE16(VERSION) + Zeros(6) + LE16(DATE) + LE32(crc)
    ensures c[20..] == Zeros(26)
  {
    hide LE32, LE16, Zeros;
    assert c[0..] == Zeros(46) && c[..0] == [];
    var ok := WriteUInt32LE(c, 0x02014b50, 0, 0);
    assert c[..4] == LE32(CENTRAL);
    ok := WriteUInt16LE(c, 20, 4, 4);
    ok := WriteUInt16LE(c, 20, 6, 6);
    ok := WriteUInt16LE(c, 0x21, 14, 8);
    ok := WriteUInt32LE(c, crc, 16, 16);
  }

  method BuildCentralHeader(e: Entry, offset: nat) returns (r: Result<bytes, Failure>)
    ensures r == if |e.data| < 0x1_0000_0000 && |e.name| < 0x1_0000 && offset < 0x1_0000_0000
                 then Ok(CentralHeader(e, offset)) else Err(OutOfRange)
  {
    hide Crc, LE32, LE16, Zeros;
    var crc := Crc32Of(e.data);
    var c := new byte[46](_ => 0);
    FillCentralStart(c, crc);
    var ok := WriteUInt32LE(c, |e.data|, 20, 20);
    if !ok {
      return Err(OutOfRange);
    }
    ok := WriteUInt32LE(c, |e.data|, 24, 24);
    ok := WriteUInt16LE(c, |e.name|, 28, 28);
    if !ok {
      return Err(OutOfRange);
    }
    ok := WriteUInt32LE(c, offset, 42, 30);
    if !ok {
      return Err(OutOfRange);
    }
    assert c[..] == c[..46];
    r := Ok(c[..]);
  }

  method BuildEndRecord(count: nat, size: nat, offset: nat) returns (r: Result<bytes, Failure>)
    ensures r == if count < 0x1_0000 && size < 0x1_0000_0000 && offset < 0x1_0000_0000
                 then Ok(EndRecord(count, size, offset)) else Err(OutOfRange)
  {
    hide LE32, LE16, Zeros;
    var end := new byte[22](_ => 0);
    assert end[0..] == Zeros(22) && end[..0] == [];
    var ok := WriteUInt32LE(end, 0x06054b50, 0, 0);
    assert end[..4] == LE32(END);
    ok := WriteUInt16LE(end, count, 8, 4);
    if !ok {
      return Err(OutOfRange);
    }
    ok := WriteUInt16LE(end, count, 10, 10);
    ok := WriteUInt32LE(end, size, 12, 12);
    if !ok {
      return Err(OutOfRange);
    }
    ok := WriteUInt32LE(end, offset, 16, 16);
    if !ok {
      return Err(OutOfRange);
    }
    assert end[..] == end[..20] + end[20..];
    r := Ok(end[..]);
  }

  /** Where the loop stands: what is written so far, and what the rest of the files still adds to it. */
  ghost predicate Written(files: seq<Entry>, i: nat, locals: bytes, central: bytes)
    requires i <= |files|
  {
    && locals + Locals(files[i..]) == Locals(files)
    && central + Directory(files[i..], |locals|) == Directory(files, 0)
    && forall j :: 0 <= j < i ==> |files[j].name| < 0x1_0000
  }

  lemma {:induction false} LocalsUnfold(files: seq<Entry>, i: nat)
    requires i < |files|
    ensures Locals(files[i..]) == LocalRecord(files[i]) + Locals(files[i + 1..])
  {
    assert files[i..][1..] == files[i + 1..];
  }

  lemma {:induction false} DirectoryUnfold(files: seq<Entry>, i: nat, offset: nat)
    requires i < |files|
    ensures Directory(files[i..], offset) == CentralHeader(files[i], offset) + files[i].name
                                            + Directory(files[i + 1..], offset + |LocalRecord(files[i])|)
  {
    assert files[i..][1..] == files[i + 1..];
  }

  lemma {:induction false} Append(a: bytes, b: bytes, c: bytes, whole: bytes)
    requires a + (b + c) == whole
    ensures (a + b) + c == whole
  {
    assert (a + b) + c == a + (b + c);
  }

  lemma {:induction false} WrittenStep(files: seq<Entry>, i: nat, locals: bytes, central: bytes)
    requires i < |files| && Written(files, i, locals, central) && |files[i].name| < 0x1_0000
    ensures var e := files[i];
      Written(files, i + 1, locals + LocalRecord(e), central + (CentralHeader(e, |locals|) + e.name))
  {
    var e := files[i];
    LocalsUnfold(files, i);
    DirectoryUnfold(files, i, |locals|);
    Append(locals, LocalRecord(e), Locals(files[i + 1..]), Locals(files));
    Append(central, CentralHeader(e, |locals|) + e.name,
           Directory(files[i + 1..], |locals| + |LocalRecord(e)|), Directory(files, 0));
  }

  /** The archive of the files, or the refusal of one that a 32-bit ZIP cannot hold. */
  method WriteArchive(files: seq<Entry>) returns (r: Result<bytes, Failure>)
    ensures r == if Fits(files) then Ok(Archive(files)) else Err(OutOfRange)
  {
    var locals: bytes, central: bytes := [], [];
    var offset := 0;
    assert files[0..] == files;
    for i := 0 to |files|
      invariant offset == |locals| && Written(files, i, locals, central)
    {
      var e := files[i];
      var head := BuildLocalHeader(e);
      if head.Err? {
        return Err(OutOfRange);
      }
      var c := BuildCentralHeader(e, offset);
      if c.Err? {
        return Err(OutOfRange);
      }
      WrittenStep(files, i, locals, central);
      locals := locals + (head.value + e.name + e.data);
      central := central + (c.value + e.name);
      offset := offset + |head.value| + |e.name| + |e.data|;
    }
    assert files[|files|..] == [];
    r := Finish(files, locals, central, offset);
  }

  method Finish(files: seq<Entry>, locals: bytes, central: bytes, offset: nat) returns (r: Result<bytes, Failure>)
    requires locals == Locals(files) && central == Directory(files, 0) && offset == |locals|
    requires forall j :: 0 <= j < |files| ==> |files[j].name| < 0x1_0000
    ensures r == if Fits(files) then Ok(Archive(files)) else Err(OutOfRange)
  {
    var end := BuildEndRecord(|files|, |central|, offset);
    if end.Err? {
      return Err(OutOfRange);
    }
    r := Ok(locals + central + end.value);
  }

  // ---------------------------------------------------------------- reading, from the end record backwards

  /** The header says that nothing is compressed, encrypted or added, and that no newer reader is needed. */
  predicate PlainLocal(zip: bytes, at: nat)
    requires at + 30 <= |zip|
  {
    Read32(zip, at) == LOCAL && Read16(zip, at + 4) <= VERSION && Read32(zip, at + 6) == 0 && Read16(zip, at + 28) == 0
  }

  predicate PlainCentral(zip: bytes, at: nat)
    requires at + 46 <= |zip|
  {
    && Read32(zip, at) == CENTRAL && Read16(zip, at + 6) <= VERSION && Read32(zip, at + 8) == 0
    && Read32(zip, at + 30) == 0 && Read16(zip, at + 34) == 0
  }

  /** One disk, no comment, and both counts the same. */
  predicate PlainEnd(zip: bytes, at: nat)
    requires at + 22 <= |zip|
  {
    && Read32(zip, at) == END && Read32(zip, at + 4) == 0 && Read16(zip, at + 20) == 0
    && Read16(zip, at + 8) == Read16(zip, at + 10)
  }

  /** The entry whose local record starts at `at`, if the record is plain and whole and its checksum agrees. */
  function ReadLocal(zip: bytes, at: nat): Option<Entry>
  {
    if at + 30 > |zip| || !PlainLocal(zip, at) then None
    else
      var n, size := Read16(zip, at + 26), Read32(zip, at + 22);
      if at + 30 + n + size > |zip| then None
      else
        var e := Entry(zip[at + 30..at + 30 + n], zip[at + 30 + n..at + 30 + n + size]);
        if Read32(zip, at + 14) != Crc(e.data) || Read32(zip, at + 18) != size then None else Some(e)
  }

  /** The directory entry at `at`, followed to the local record it points at; the two must tell the same. */
  function ReadEntry(zip: bytes, at: nat): Option<Entry>
  {
    if at + 46 > |zip| || !PlainCentral(zip, at) then None
    else
      var n := Read16(zip, at + 28);
      var local := ReadLocal(zip, Read32(zip, at + 42));
      if at + 46 + n > |zip| || local.None? then None
      else
        var e := local.value;
        if e.name != zip[at + 46..at + 46 + n] || |e.data| != Read32(zip, at + 20)
           || |e.data| != Read32(zip, at + 24) || Crc(e.data) != Read32(zip, at + 16) then None
        else Some(e)
  }

  /** `count` directory entries from `at` on, and where they end. */
  function ReadDirectory(zip: bytes, at: nat, count: nat): Option<(seq<Entry>, nat)>
    decreases count
  {
    if count == 0 then Some(([], at))
    else
      var e := ReadEntry(zip, at);
      if e.None? then None
      else
        var rest := ReadDirectory(zip, at + 46 + |e.value.name|, count - 1);
        if rest.None? then None else Some(([e.value] + rest.value.0, rest.value.1))
  }

  function ReadArchive(zip: bytes): Option<seq<Entry>>
  {
    if |zip| < 22 then None
    else
      var end := |zip| - 22;
      if !PlainEnd(zip, end) then None
      else
        var start, size := Read32(zip, end + 16), Read32(zip, end + 12);
        if start + size != end then None
        else
          var entries := ReadDirectory(zip, start, Read16(zip, end + 10));
          if entries.None? || entries.value.1 != end then None else Some(entries.value.0)
  }

  predicate At(zip: bytes, at: nat, s: bytes)
  {
    at + |s| <= |zip| && zip[at..at + |s|] == s
  }

  lemma {:induction false} AtPart(zip: bytes, at: nat, s: bytes, from: nat, part: bytes)
    requires At(zip, at, s) && from + |part| <= |s| && s[from..from + |part|] == part
    ensures At(zip, at + from, part)
  {
    forall i | 0 <= i < |part| ensures zip[at + from + i] == part[i] {
      assert zip[at + from + i] == zip[at..at + |s|][from + i];
      assert part[i] == s[from..from + |part|][i];
    }
  }

  lemma {:induction false} TwoParts(zip: bytes, at: nat, first: bytes, rest: bytes)
    requires At(zip, at, first + rest)
    ensures At(zip, at, first) && At(zip, at + |first|, rest)
  {
    var l := first + rest;
    assert l[0..0 + |first|] == first;
    AtPart(zip, at, l, 0, first);
    assert l[|first|..|first| + |rest|] == rest;
    AtPart(zip, at, l, |first|, rest);
  }

  lemma {:induction false} Read32At(zip: bytes, at: nat, s: bytes, from: nat, v: nat)
    requires At(zip, at, s) && from + 4 <= |s| && s[from..from + 4] == LE32(v) && v < 0x1_0000_0000
    ensures Read32(zip, at + from) == v
  {
    AtPart(zip, at, s, from, LE32(v));
    Read32OfLE32(v, zip, at + from);
  }

  lemma {:induction false} Read16At(zip: bytes, at: nat, s: bytes, from: nat, v: nat)
    requires At(zip, at, s) && from + 2 <= |s| && s[from..from + 2] == LE16(v) && v < 0x1_0000
    ensures Read16(zip, at + from) == v
  {
    AtPart(zip, at, s, from, LE16(v));
    Read16OfLE16(v, zip, at + from);
  }

  lemma {:induction false} LocalSlices(e: Entry)
    ensures var h := LocalHeader(e);
      && h[0..4] == LE32(LOCAL) && h[14..18] == LE32(Crc(e.data)) && h[18..22] == LE32(|e.data|)
      && h[22..26] == LE32(|e.data|) && h[26..28] == LE16(|e.name|)
      && h[4..6] == LE16(VERSION) && h[6..10] == Zeros(6)[0..4] && h[28..30] == Zeros(2)
  {
    hide LE32, LE16, Zeros, Crc;
  }

  lemma {:induction false} ZeroFields()
    ensures LE32(0) == Zeros(6)[0..4] == Zeros(6)[..4] == Zeros(12)[0..4] == Zeros(4)
    ensures LE16(0) == Zeros(12)[4..6] == Zeros(2)
  {}

  lemma {:induction false} CentralSlices(e: Entry, offset: nat)
    ensures var h := CentralHeader(e, offset);
      && h[0..4] == LE32(CENTRAL) && h[16..20] == LE32(Crc(e.data)) && h[20..24] == LE32(|e.data|)
      && h[24..28] == LE32(|e.data|) && h[28..30] == LE16(|e.name|) && h[42..46] == LE32(offset)
      && h[6..8] == LE16(VERSION) && h[8..12] == Zeros(6)[0..4] && h[30..34] == Zeros(12)[0..4]
      && h[34..36] == Zeros(12)[4..6]
  {
    hide LE32, LE16, Zeros, Crc;
  }

  lemma {:induction false} LocalFields(zip: bytes, at: nat, e: Entry)
    requires At(zip, at, LocalHeader(e)) && |e.name| < 0x1_0000 && |e.data| < 0x1_0000_0000
    ensures PlainLocal(zip, at) && Read32(zip, at + 14) == Crc(e.data)
    ensures Read32(zip, at + 18) == |e.data| && Read32(zip, at + 22) == |e.data|
    ensures Read16(zip, at + 26) == |e.name|
  {
    var h := LocalHeader(e);
    LocalSlices(e);
    ZeroFields();
    hide LE32, LE16, Zeros, Crc, LocalHeader, Read32, Read16;
    Read32At(zip, at, h, 0, LOCAL);
    Read16At(zip, at, h, 4, VERSION);
    Read32At(zip, at, h, 6, 0);
    Read16At(zip, at, h, 28, 0);
    Read32At(zip, at, h, 14, Crc(e.data));
    Read32At(zip, at, h, 18, |e.data|);
    Read32At(zip, at, h, 22, |e.data|);
    Read16At(zip, at, h, 26, |e.name|);
  }

  lemma {:induction false} LocalParts(zip: bytes, at: nat, e: Entry)
    requires At(zip, at, LocalRecord(e))
    ensures At(zip, at, LocalHeader(e)) && At(zip, at + 30, e.name) && At(zip, at + 30 + |e.name|, e.data)
  {
    hide LocalHeader;
    TwoParts(zip, at, LocalHeader(e) + e.name, e.data);
    TwoParts(zip, at, LocalHeader(e), e.name);
  }

  /** A local record is read back wherever it lies. */
  lemma {:induction false} ReadLocalBack(zip: bytes, at: nat, e: Entry)
    requires At(zip, at, LocalRecord(e)) && |e.name| < 0x1_0000 && |e.data| < 0x1_0000_0000
    ensures ReadLocal(zip, at) == Some(e)
  {
    hide LocalHeader, LocalRecord, Crc, PlainLocal, Read32, Read16;
    LocalParts(zip, at, e);
    LocalFields(zip, at, e);
  }

  lemma {:induction false} CentralFields(zip: bytes, at: nat, e: Entry, offset: nat)
    requires At(zip, at, CentralHeader(e, offset))
    requires |e.name| < 0x1_0000 && |e.data| < 0x1_0000_0000 && offset < 0x1_0000_0000
    ensures PlainCentral(zip, at) && Read32(zip, at + 16) == Crc(e.data)
    ensures Read32(zip, at + 20) == |e.data| && Read32(zip, at + 24) == |e.data|
    ensures Read16(zip, at + 28) == |e.name| && Read32(zip, at + 42) == offset
  {
    var h := CentralHeader(e, offset);
    CentralSlices(e, offset);
    ZeroFields();
    hide LE32, LE16, Zeros, Crc, CentralHeader, Read32, Read16;
    Read32At(zip, at, h, 0, CENTRAL);
    Read16At(zip, at, h, 6, VERSION);
    Read32At(zip, at, h, 8, 0);
    Read32At(zip, at, h, 30, 0);
    Read16At(zip, at, h, 34, 0);
    Read32At(zip, at, h, 16, Crc(e.data));
    Read32At(zip, at, h, 20, |e.data|);
    Read32At(zip, at, h, 24, |e.data|);
    Read16At(zip, at, h, 28, |e.name|);
    Read32At(zip, at, h, 42, offset);
  }

  lemma {:induction false} DirectoryParts(zip: bytes, at: nat, offset: nat, files: seq<Entry>)
    requires files != [] && At(zip, at, Directory(files, offset))
    ensures var e := files[0];
      && At(zip, at, CentralHeader(e, offset)) && At(zip, at + 46, e.name)
      && At(zip, at + 46 + |e.name|, Directory(files[1..], offset + |LocalRecord(e)|))
  {
    hide CentralHeader, LocalRecord;
    var e := files[0];
    TwoParts(zip, at, CentralHeader(e, offset) + e.name, Directory(files[1..], offset + |LocalRecord(e)|));
    TwoParts(zip, at, CentralHeader(e, offset), e.name);
  }

  lemma {:induction false} ReadEntryBack(zip: bytes, at: nat, offset: nat, e: Entry)
    requires At(zip, at, CentralHeader(e, offset)) && At(zip, at + 46, e.name) && ReadLocal(zip, offset) == Some(e)
    requires |e.name| < 0x1_0000 && |e.data| < 0x1_0000_0000 && offset < 0x1_0000_0000
    ensures ReadEntry(zip, at) == Some(e)
  {
    hide ReadLocal, CentralHeader, Crc, PlainCentral, Read32, Read16;
    CentralFields(zip, at, e, offset);
  }

  lemma {:induction false} ReadDirectoryStep(zip: bytes, at: nat, e: Entry, rest: seq<Entry>, end: nat)
    requires ReadEntry(zip, at) == Some(e)
    requires ReadDirectory(zip, at + 46 + |e.name|, |rest|) == Some((rest, end))
    ensures ReadDirectory(zip, at, |rest| + 1) == Some(([e] + rest, end))
  {
    hide ReadEntry;
  }

  lemma {:induction false} FirstEntryBack(zip: bytes, at: nat, offset: nat, files: seq<Entry>)
    requires files != [] && At(zip, at, Directory(files, offset)) && At(zip, offset, Locals(files))
    requires offset + |Locals(files)| < 0x1_0000_0000 && |files[0].name| < 0x1_0000
    ensures var e := files[0];
      var next := offset + |LocalRecord(e)|;
      && ReadEntry(zip, at) == Some(e)
      && At(zip, at + 46 + |e.name|, Directory(files[1..], next)) && At(zip, next, Locals(files[1..]))
  {
    hide ReadEntry, ReadLocal, LocalHeader, CentralHeader, Crc, Read32, Read16;
    DirectoryParts(zip, at, offset, files);
    TwoParts(zip, offset, LocalRecord(files[0]), Locals(files[1..]));
    ReadLocalBack(zip, offset, files[0]);
    ReadEntryBack(zip, at, offset, files[0]);
  }

  /** Directory entries lead back to exactly the files whose local records they describe. */
  lemma {:induction false} ReadDirectoryBack(zip: bytes, at: nat, offset: nat, files: seq<Entry>)
    requires At(zip, at, Directory(files, offset)) && At(zip, offset, Locals(files))
    requires offset + |Locals(files)| < 0x1_0000_0000 && NamesFit(files)
    ensures ReadDirectory(zip, at, |files|) == Some((files, at + |Directory(files, offset)|))
    decreases files
  {
    hide ReadEntry, LocalHeader, CentralHeader;
    if files != [] {
      var e, rest := files[0], files[1..];
      var next := offset + |LocalRecord(e)|;
      FirstEntryBack(zip, at, offset, files);
      ReadDirectoryBack(zip, at + 46 + |e.name|, next, rest);
      ReadDirectoryStep(zip, at, e, rest, at + |Directory(files, offset)|);
      assert [e] + rest == files;
    }
  }

  lemma {:induction false} EndSlices(count: nat, size: nat, offset: nat)
    ensures var end := EndRecord(count, size, offset);
      && end[0..4] == LE32(END) && end[4..8] == Zeros(4) && end[8..10] == LE16(count) && end[10..12] == LE16(count)
      && end[12..16] == LE32(size) && end[16..20] == LE32(offset) && end[20..22] == Zeros(2)
  {
    hide LE32, LE16, Zeros;
  }

  lemma {:induction false} EndFields(zip: bytes, at: nat, count: nat, size: nat, offset: nat)
    requires At(zip, at, EndRecord(count, size, offset))
    requires count < 0x1_0000 && size < 0x1_0000_0000 && offset < 0x1_0000_0000
    ensures PlainEnd(zip, at) && Read16(zip, at + 8) == count && Read16(zip, at + 10) == count
    ensures Read32(zip, at + 12) == size && Read32(zip, at + 16) == offset
  {
    var end := EndRecord(count, size, offset);
    EndSlices(count, size, offset);
    ZeroFields();
    hide LE32, LE16, Zeros, EndRecord, Read32, Read16;
    Read32At(zip, at, end, 0, END);
    Read32At(zip, at, end, 4, 0);
    Read16At(zip, at, end, 20, 0);
    Read16At(zip, at, end, 8, count);
    Read16At(zip, at, end, 10, count);
    Read32At(zip, at, end, 12, size);
    Read32At(zip, at, end, 16, offset);
  }

  lemma {:induction false} ReadArchiveParts(zip: bytes, files: seq<Entry>, size: nat, offset: nat)
    requires |zip| == offset + size + 22 && At(zip, offset + size, EndRecord(|files|, size, offset))
    requires |files| < 0x1_0000 && size < 0x1_0000_0000 && offset < 0x1_0000_0000
    requires ReadDirectory(zip, offset, |files|) == Some((files, offset + size))
    ensures ReadArchive(zip) == Some(files)
  {
    hide EndRecord, PlainEnd, ReadDirectory, Read32, Read16;
    EndFields(zip, offset + size, |files|, size, offset);
  }

  /** The archive is read back, from its last 22 bytes, to exactly the files written. */
  lemma {:induction false} ArchiveReadsBack(files: seq<Entry>)
    requires Fits(files)
    ensures ReadArchive(Archive(files)) == Some(files)
  {
    hide ReadArchive, ReadDirectory, Locals, Directory;
    var l, d := Locals(files), Directory(files, 0);
    ReadDirectoryBack(Archive(files), |l|, 0, files);
    ReadArchiveParts(Archive(files), files, |d|, |l|);
  }

  /** Different files, or the same in another order, give different archives. */
  lemma {:induction false} ArchiveInjective(a: seq<Entry>, b: seq<Entry>)
    requires Fits(a) && Fits(b) && Archive(a) == Archive(b)
    ensures a == b
  {
    hide ReadArchive, Archive, Fits;
    ArchiveReadsBack(a);
    ArchiveReadsBack(b);
  }

  // ---------------------------------------------------------------- the records, byte by byte

  /** A number of the format: lowest byte first. */
  function Low(n: nat): seq<nat> { [n % 256, n / 256 % 256] }

  function Long(n: nat): seq<nat> { [n % 256, n / 256 % 256, n / 65536 % 256, n / 16777216 % 256] }

  /** PK 3 4, version 2.0, no flags, stored, midnight of the first of January 1980, checksum, size twice, length of the name. */
  lemma {:induction false} LocalHeaderIs(e: Entry)
    ensures LocalHeader(e) == [0x50, 0x4b, 3, 4, 20, 0, 0, 0, 0, 0, 0, 0, 0x21, 0] + Long(Crc(e.data)) + Long(|e.data|)
                              + Long(|e.data|) + Low(|e.name|) + [0, 0]
  {
    hide Crc;
  }

  /** PK 1 2, the same again, and where the local record starts. */
  lemma {:induction false} CentralHeaderIs(e: Entry, offset: nat)
    ensures CentralHeader(e, offset) == [0x50, 0x4b, 1, 2, 20, 0, 20, 0, 0, 0, 0, 0, 0, 0, 0x21, 0] + Long(Crc(e.data))
      + Long(|e.data|) + Long(|e.data|) + Low(|e.name|) + [0, 0, 0, 0, 0, 0, 0, 0, 0, 0, 0, 0] + Long(offset)
  {
    hide Crc;
  }

  /** PK 5 6, the count twice, and the directory's size and start. */
  lemma {:induction false} EndRecordIs(count: nat, size: nat, offset: nat)
    ensures EndRecord(count, size, offset) ==
      [0x50, 0x4b, 5, 6, 0, 0, 0, 0] + Low(count) + Low(count) + Long(size) + Long(offset) + [0, 0]
  {}

  /** Local records one after the other, then the directory, then the end record. */
  lemma {:induction false} ArchiveIs(files: seq<Entry>)
    ensures Archive(files) == Locals(files) + Directory(files, 0) + EndRecord(|files|, |Directory(files, 0)|, |Locals(files)|)
    ensures files != [] ==> Locals(files) == LocalHeader(files[0]) + files[0].name + files[0].data + Locals(files[1..])
  {}

  /** What a ZIP without extensions holds: 65535 files, names of 65535 bytes, four gigabytes less one of everything else. */
  lemma {:induction false} FitsIs(files: seq<Entry>)
    ensures Fits(files) <==>
      && |files| <= 65535 && (forall i :: 0 <= i < |files| ==> |files[i].name| <= 65535)
      && |Locals(files)| <= 4294967295 && |Directory(files, 0)| <= 4294967295
  {
    hide Locals, Directory;
  }
}
