/**
 A reader that follows the layout of the PKWARE APPNOTE (sections 4.3.7, 4.3.12 and 4.3.16): it starts
 at the end record, walks the central directory and follows each stored offset. It knows no ZIP64
 fields, so it refuses their markers.
 */
module StoredZipReader {
  import opened Wrappers
  import opened StoredZip

  function Read16(b: seq<Byte>, at: nat): (n: nat)
    requires at + 2 <= |b|
    ensures n < TWO_16
  {
    var low: int, high: int := b[at], b[at + 1];
    low + 256 * high
  }

  function Read32(b: seq<Byte>, at: nat): (n: nat)
    requires at + 4 <= |b|
    ensures n < TWO_32
  {
    Read16(b, at) + TWO_16 * Read16(b, at + 2)
  }

  const MARKER_16: nat := 0xFFFF
  const MARKER_32: nat := 0xFFFF_FFFF

  /** The file whose central record starts at `at`, and where the next central record starts. */
  function ReadCentral(zip: seq<Byte>, at: nat, crc: Checksum): Option<(File, nat)>
  {
    if at + 46 > |zip| || zip[at..at + 4] != CENTRAL_SIG then None
    else
      var sum, packed, size := Read32(zip, at + 16), Read32(zip, at + 20), Read32(zip, at + 24);
      var nameSize, extraSize, commentSize := Read16(zip, at + 28), Read16(zip, at + 30), Read16(zip, at + 32);
      var offset := Read32(zip, at + 42);
      var next := at + 46 + nameSize + extraSize + commentSize;
      if next > |zip| || Read16(zip, at + 10) != 0 || packed != size || size == MARKER_32 || offset == MARKER_32
      then None
      else
        var name := zip[at + 46..at + 46 + nameSize];
        match ReadLocal(zip, offset, name, size, sum)
        case None => None
        case Some(data) => if crc(data) % TWO_32 == sum then Some((File(name, data), next)) else None
  }

  /** The data of the local record at `at`, which must repeat what the central record says. */
  function ReadLocal(zip: seq<Byte>, at: nat, name: seq<Byte>, size: nat, sum: nat): Option<seq<Byte>> {
    if at + 30 > |zip| || zip[at..at + 4] != LOCAL_SIG then None
    else
      var nameSize, extraSize := Read16(zip, at + 26), Read16(zip, at + 28);
      var start := at + 30 + nameSize + extraSize;
      if start + size > |zip| || Read16(zip, at + 8) != 0 || Read32(zip, at + 14) != sum
         || Read32(zip, at + 18) != size || Read32(zip, at + 22) != size || zip[at + 30..at + 30 + nameSize] != name
      then None
      else Some(zip[start..start + size])
  }

  function ReadCentrals(zip: seq<Byte>, at: nat, count: nat, crc: Checksum): Option<(seq<File>, nat)>
    decreases count
  {
    if count == 0 then Some(([], at))
    else
      match ReadCentral(zip, at, crc)
      case None => None
      case Some((f, next)) =>
        match ReadCentrals(zip, next, count - 1, crc)
        case None => None
        case Some((rest, end)) => Some(([f] + rest, end))
  }

  function ReadArchive(zip: seq<Byte>, crc: Checksum): Option<seq<File>> {
    var end := |zip| - 22;
    if end < 0 || zip[end..end + 4] != END_SIG then None
    else
      var count, size, start := Read16(zip, end + 10), Read32(zip, end + 12), Read32(zip, end + 16);
      if Read16(zip, end + 8) != count || count == MARKER_16 || size == MARKER_32 || start == MARKER_32
         || start + size != end
      then None
      else
        match ReadCentrals(zip, start, count, crc)
        case None => None
        case Some((files, stop)) => if stop == end then Some(files) else None
  }

  // ----- Numbers -----

  /** The bytes from `at` on start with `part`. */
  predicate Holds(zip: seq<Byte>, at: nat, part: seq<Byte>) {
    at + |part| <= |zip| && zip[at..at + |part|] == part
  }

  lemma HoldsSplit(zip: seq<Byte>, at: nat, a: seq<Byte>, b: seq<Byte>)
    requires Holds(zip, at, a + b)
    ensures Holds(zip, at, a) && Holds(zip, at + |a|, b)
  {
    var w := zip[at..at + |a + b|];
    assert zip[at..at + |a|] == w[..|a|] == a;
    assert zip[at + |a|..at + |a| + |b|] == w[|a|..] == b;
  }

  lemma Remainder16(k: nat, r: nat)
    requires r < TWO_16
    ensures (TWO_16 * k + r) % TWO_16 == r
  {
  }

  lemma Remainder32(k: nat, r: nat)
    requires r < TWO_32
    ensures (TWO_32 * k + r) % TWO_32 == r
  {
  }

  lemma Digits16(n: nat)
    ensures n % 256 + 256 * (n / 256 % 256) == n % TWO_16
  {
    var q := n / 256;
    assert n == 256 * q + n % 256 && q == 256 * (q / 256) + q % 256;
    Remainder16(q / 256, 256 * (q % 256) + n % 256);
  }

  lemma Digits32(n: nat)
    ensures n % TWO_16 + TWO_16 * (n / TWO_16 % TWO_16) == n % TWO_32
  {
    var q := n / TWO_16;
    assert n == TWO_16 * q + n % TWO_16 && q == TWO_16 * (q / TWO_16) + q % TWO_16;
    Remainder32(q / TWO_16, TWO_16 * (q % TWO_16) + n % TWO_16);
  }

  lemma Read16Of(zip: seq<Byte>, at: nat, n: nat)
    requires Holds(zip, at, U16(n))
    ensures Read16(zip, at) == n % TWO_16
  {
    var w := zip[at..at + 2];
    assert w[0] == zip[at] && w[1] == zip[at + 1];
    Digits16(n);
  }

  lemma Read32Of(zip: seq<Byte>, at: nat, n: nat)
    requires Holds(zip, at, U32(n))
    ensures Read32(zip, at) == n % TWO_32
  {
    HoldsSplit(zip, at, U16(n), U16(n / TWO_16));
    Read16Of(zip, at, n);
    Read16Of(zip, at + 2, n / TWO_16);
    Digits32(n);
  }

  // ----- Fields of the records -----

  lemma LocalFields(zip: seq<Byte>, at: nat, f: File, crc: Checksum)
    requires Holds(zip, at, LocalHeader(f, crc))
    ensures at + 30 <= |zip| && zip[at..at + 4] == LOCAL_SIG && Read16(zip, at + 8) == 0
    ensures Read32(zip, at + 14) == crc(f.data) % TWO_32
    ensures Read32(zip, at + 18) == Read32(zip, at + 22) == |f.data| % TWO_32
    ensures Read16(zip, at + 26) == |f.name| % TWO_16 && Read16(zip, at + 28) == 0
  {
    var h8 := LOCAL_SIG + U16(20) + U16(0);
    var h10 := h8 + U16(0);
    var h14 := h10 + U16(0) + U16(0);
    var h18 := h14 + U32(crc(f.data));
    var h22 := h18 + U32(|f.data|);
    var h26 := h22 + U32(|f.data|);
    var h28 := h26 + U16(|f.name|);
    HoldsSplit(zip, at, h28, U16(0));
    HoldsSplit(zip, at, h26, U16(|f.name|));
    HoldsSplit(zip, at, h22, U32(|f.data|));
    HoldsSplit(zip, at, h18, U32(|f.data|));
    HoldsSplit(zip, at, h14, U32(crc(f.data)));
    HoldsSplit(zip, at, h10 + U16(0), U16(0));
    HoldsSplit(zip, at, h10, U16(0));
    HoldsSplit(zip, at, h8, U16(0));
    HoldsSplit(zip, at, LOCAL_SIG + U16(20), U16(0));
    HoldsSplit(zip, at, LOCAL_SIG, U16(20));
    Read16Of(zip, at + 8, 0);
    Read32Of(zip, at + 14, crc(f.data));
    Read32Of(zip, at + 18, |f.data|);
    Read32Of(zip, at + 22, |f.data|);
    Read16Of(zip, at + 26, |f.name|);
    Read16Of(zip, at + 28, 0);
  }

  lemma CentralFields(zip: seq<Byte>, at: nat, f: File, crc: Checksum, offset: nat)
    requires Holds(zip, at, CentralHeader(f, crc, offset))
    ensures at + 46 <= |zip| && zip[at..at + 4] == CENTRAL_SIG && Read16(zip, at + 10) == 0
    ensures Read32(zip, at + 16) == crc(f.data) % TWO_32
    ensures Read32(zip, at + 20) == Read32(zip, at + 24) == |f.data| % TWO_32
    ensures Read16(zip, at + 28) == |f.name| % TWO_16
    ensures Read16(zip, at + 30) == Read16(zip, at + 32) == 0
    ensures Read32(zip, at + 42) == offset % TWO_32
  {
    var h10 := CENTRAL_SIG + U16(20) + U16(20) + U16(0);
    var h16 := h10 + U16(0) + U16(0) + U16(0);
    var h20 := h16 + U32(crc(f.data));
    var h24 := h20 + U32(|f.data|);
    var h28 := h24 + U32(|f.data|);
    var h30 := h28 + U16(|f.name|);
    var h32 := h30 + U16(0);
    var h34 := h32 + U16(0);
    HoldsSplit(zip, at, h34 + U16(0) + U16(0) + U32(0), U32(offset));
    HoldsSplit(zip, at, h34 + U16(0) + U16(0), U32(0));
    HoldsSplit(zip, at, h34 + U16(0), U16(0));
    HoldsSplit(zip, at, h34, U16(0));
    HoldsSplit(zip, at, h32, U16(0));
    HoldsSplit(zip, at, h30, U16(0));
    HoldsSplit(zip, at, h28, U16(|f.name|));
    HoldsSplit(zip, at, h24, U32(|f.data|));
    HoldsSplit(zip, at, h20, U32(|f.data|));
    HoldsSplit(zip, at, h16, U32(crc(f.data)));
    HoldsSplit(zip, at, h10 + U16(0) + U16(0), U16(0));
    HoldsSplit(zip, at, h10 + U16(0), U16(0));
    HoldsSplit(zip, at, h10, U16(0));
    HoldsSplit(zip, at, CENTRAL_SIG + U16(20) + U16(20), U16(0));
    HoldsSplit(zip, at, CENTRAL_SIG + U16(20), U16(20));
    HoldsSplit(zip, at, CENTRAL_SIG, U16(20));
    Read16Of(zip, at + 10, 0);
    Read32Of(zip, at + 16, crc(f.data));
    Read32Of(zip, at + 20, |f.data|);
    Read32Of(zip, at + 24, |f.data|);
    Read16Of(zip, at + 28, |f.name|);
    Read16Of(zip, at + 30, 0);
    Read16Of(zip, at + 32, 0);
    Read32Of(zip, at + 42, offset);
  }

  lemma EndFields(zip: seq<Byte>, at: nat, count: nat, size: nat, start: nat)
    requires Holds(zip, at, EndRecord(count, size, start))
    ensures at + 22 <= |zip| && zip[at..at + 4] == END_SIG
    ensures Read16(zip, at + 8) == Read16(zip, at + 10) == count % TWO_16
    ensures Read32(zip, at + 12) == size % TWO_32 && Read32(zip, at + 16) == start % TWO_32
  {
    var h8 := END_SIG + U16(0) + U16(0);
    var h10 := h8 + U16(count);
    var h12 := h10 + U16(count);
    var h16 := h12 + U32(size);
    HoldsSplit(zip, at, h16 + U32(start), U16(0));
    HoldsSplit(zip, at, h16, U32(start));
    HoldsSplit(zip, at, h12, U32(size));
    HoldsSplit(zip, at, h10, U16(count));
    HoldsSplit(zip, at, h8, U16(count));
    HoldsSplit(zip, at, END_SIG + U16(0), U16(0));
    HoldsSplit(zip, at, END_SIG, U16(0));
    Read16Of(zip, at + 8, count);
    Read16Of(zip, at + 10, count);
    Read32Of(zip, at + 12, size);
    Read32Of(zip, at + 16, start);
  }

  // ----- Round trip -----

  lemma LocalReads(zip: seq<Byte>, at: nat, f: File, crc: Checksum)
    requires Holds(zip, at, LocalRecord(f, crc))
    requires |f.name| < TWO_16 && |f.data| < TWO_32
    ensures ReadLocal(zip, at, f.name, |f.data|, crc(f.data) % TWO_32) == Some(f.data)
  {
    hide LocalHeader, Read16, Read32;
    HoldsSplit(zip, at, LocalHeader(f, crc) + f.name, f.data);
    HoldsSplit(zip, at, LocalHeader(f, crc), f.name);
    LocalFields(zip, at, f, crc);
  }

  lemma CentralReads(zip: seq<Byte>, at: nat, f: File, crc: Checksum, offset: nat)
    requires Holds(zip, at, CentralRecord(f, crc, offset)) && Holds(zip, offset, LocalRecord(f, crc))
    requires |f.name| < TWO_16 && |f.data| < MARKER_32 && offset < MARKER_32
    ensures ReadCentral(zip, at, crc) == Some((f, at + |CentralRecord(f, crc, offset)|))
  {
    hide CentralHeader, LocalRecord, ReadLocal, Read16, Read32;
    HoldsSplit(zip, at, CentralHeader(f, crc, offset), f.name);
    CentralFields(zip, at, f, crc, offset);
    LocalReads(zip, offset, f, crc);
  }

  lemma CentralsStep(zip: seq<Byte>, at: nat, count: nat, crc: Checksum, f: File, next: nat, rest: seq<File>, end: nat)
    requires ReadCentral(zip, at, crc) == Some((f, next))
    requires ReadCentrals(zip, next, count, crc) == Some((rest, end))
    ensures ReadCentrals(zip, at, count + 1, crc) == Some(([f] + rest, end))
  {
    hide ReadCentral;
  }

  lemma RecordsSplit(files: seq<File>, crc: Checksum, offset: nat)
    requires files != []
    ensures var f, rest := files[0], files[1..];
            var next := offset + |LocalRecord(f, crc)|;
            && Locals(files, crc) == LocalRecord(f, crc) + Locals(rest, crc)
            && Centrals(files, crc, offset) == CentralRecord(f, crc, offset) + Centrals(rest, crc, next)
            && |f.data| <= |LocalRecord(f, crc)| && |LocalRecord(f, crc)| >= 30
  {
    hide LocalHeader, CentralRecord;
  }

  lemma NoRecords(zip: seq<Byte>, at: nat, crc: Checksum, offset: nat)
    ensures Centrals([], crc, offset) == [] && ReadCentrals(zip, at, 0, crc) == Some(([], at))
  {
  }

  predicate ShortNames(files: seq<File>) {
    forall k :: 0 <= k < |files| ==> |files[k].name| < TWO_16
  }

  lemma ShortNamesSplit(files: seq<File>)
    requires files != [] && ShortNames(files)
    ensures |files[0].name| < TWO_16 && ShortNames(files[1..]) && files == [files[0]] + files[1..]
  {
  }

  /** Each central record stores the summed length of the local records before its own. */
  lemma {:induction false} CentralsRead(zip: seq<Byte>, at: nat, files: seq<File>, crc: Checksum, offset: nat)
    requires Holds(zip, at, Centrals(files, crc, offset)) && Holds(zip, offset, Locals(files, crc))
    requires ShortNames(files)
    requires offset + |Locals(files, crc)| <= MARKER_32
    ensures ReadCentrals(zip, at, |files|, crc) == Some((files, at + |Centrals(files, crc, offset)|))
    decreases |files|
  {
    hide *;
    if files == [] {
      NoRecords(zip, at, crc, offset);
    } else {
      var f, rest := files[0], files[1..];
      var next := offset + |LocalRecord(f, crc)|;
      var nextAt := at + |CentralRecord(f, crc, offset)|;
      ShortNamesSplit(files);
      RecordsSplit(files, crc, offset);
      HoldsSplit(zip, at, CentralRecord(f, crc, offset), Centrals(rest, crc, next));
      HoldsSplit(zip, offset, LocalRecord(f, crc), Locals(rest, crc));
      CentralReads(zip, at, f, crc, offset);
      CentralsRead(zip, nextAt, rest, crc, next);
      CentralsStep(zip, at, |rest|, crc, f, nextAt, rest, nextAt + |Centrals(rest, crc, next)|);
    }
  }

  /** The bounds that the fields of the format impose. */
  predicate Fits(files: seq<File>, crc: Checksum) {
    && |files| < MARKER_16 && ShortNames(files)
    && |Locals(files, crc)| < MARKER_32 && |Centrals(files, crc, 0)| < MARKER_32
  }

  lemma ArchiveParts(files: seq<File>, crc: Checksum)
    ensures var zip, locals, centrals := Archive(files, crc), Locals(files, crc), Centrals(files, crc, 0);
            && |zip| == |locals| + |centrals| + 22
            && Holds(zip, 0, locals) && Holds(zip, |locals|, centrals)
            && Holds(zip, |zip| - 22, EndRecord(|files|, |centrals|, |locals|))
  {
    hide Locals, Centrals, EndRecord;
    var zip, locals, centrals := Archive(files, crc), Locals(files, crc), Centrals(files, crc, 0);
    var end := EndRecord(|files|, |centrals|, |locals|);
    assert zip[0..|zip|] == zip;
    HoldsSplit(zip, 0, locals + centrals, end);
    HoldsSplit(zip, 0, locals, centrals);
  }

  lemma ReadInvertsArchive(files: seq<File>, crc: Checksum)
    requires Fits(files, crc)
    ensures ReadArchive(Archive(files, crc), crc) == Some(files)
  {
    hide Archive, Locals, Centrals, EndRecord, ReadCentrals, Read16, Read32, Holds;
    var zip, locals, centrals := Archive(files, crc), Locals(files, crc), Centrals(files, crc, 0);
    ArchiveParts(files, crc);
    EndFields(zip, |zip| - 22, |files|, |centrals|, |locals|);
    CentralsRead(zip, |locals|, files, crc, 0);
  }

  // ----- The bounds are exact -----

  lemma {:induction false} ReadNamesAreShort(zip: seq<Byte>, at: nat, count: nat, crc: Checksum)
    ensures var r := ReadCentrals(zip, at, count, crc);
            r.Some? ==> |r.value.0| == count && ShortNames(r.value.0)
    decreases count
  {
    hide ReadCentral;
    if count > 0 && ReadCentral(zip, at, crc).Some? {
      var (f, next) := ReadCentral(zip, at, crc).value;
      ReadNameIsShort(zip, at, crc);
      ReadNamesAreShort(zip, next, count - 1, crc);
    }
  }

  lemma ReadNameIsShort(zip: seq<Byte>, at: nat, crc: Checksum)
    ensures var r := ReadCentral(zip, at, crc); r.Some? ==> |r.value.0.name| < TWO_16
  {
    hide ReadLocal, Read16, Read32;
  }

  /** What the reader has checked when it accepts an archive. */
  lemma AcceptedEnd(zip: seq<Byte>, crc: Checksum, files: seq<File>)
    requires |zip| >= 22 && ReadArchive(zip, crc) == Some(files)
    ensures var end := |zip| - 22;
            var count, size, start := Read16(zip, end + 10), Read32(zip, end + 12), Read32(zip, end + 16);
            && count == |files| != MARKER_16 && size != MARKER_32 && start != MARKER_32
            && start + size == end && ShortNames(files)
  {
    hide ReadCentrals, Read16, Read32, ShortNames;
    ReadNamesAreShort(zip, Read32(zip, |zip| - 22 + 16), Read16(zip, |zip| - 22 + 10), crc);
  }

  lemma ReadableFits(files: seq<File>, crc: Checksum)
    requires ReadArchive(Archive(files, crc), crc) == Some(files)
    ensures Fits(files, crc)
  {
    hide Archive, ReadArchive, Locals, Centrals, EndRecord, Read16, Read32, Holds, ShortNames;
    var zip := Archive(files, crc);
    var locals, centrals := |Locals(files, crc)|, |Centrals(files, crc, 0)|;
    ArchiveParts(files, crc);
    EndFields(zip, |zip| - 22, |files|, centrals, locals);
    AcceptedEnd(zip, crc, files);
    assert locals % TWO_32 <= locals && centrals % TWO_32 <= centrals;
  }

  /** Main result: the archive is read back, names, contents and order, exactly when every count, name
      length and offset fits its field below the ZIP64 marker. */
  lemma RoundTripIffFits(files: seq<File>, crc: Checksum)
    ensures ReadArchive(Archive(files, crc), crc) == Some(files) <==> Fits(files, crc)
  {
    hide *;
    if Fits(files, crc) {
      ReadInvertsArchive(files, crc);
    }
    if ReadArchive(Archive(files, crc), crc) == Some(files) {
      ReadableFits(files, crc);
    }
  }
}
