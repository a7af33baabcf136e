/** The uncompressed archive that `bets/a-sdk-mcp-gen/src/archive.js` writes, and its bounds. */
module StoredZip {

  type Byte = b: int | 0 <= b < 256

  /** The checksum of a file; the source takes it from zlib, here it is any function. */
  type Checksum = seq<Byte> -> nat

  datatype File = File(name: seq<Byte>, data: seq<Byte>)

  const TWO_16: nat := 0x1_0000
  const TWO_32: nat := 0x1_0000_0000

  const LOCAL_SIG: seq<Byte> := [0x50, 0x4b, 0x03, 0x04]
  const CENTRAL_SIG: seq<Byte> := [0x50, 0x4b, 0x01, 0x02]
  const END_SIG: seq<Byte> := [0x50, 0x4b, 0x05, 0x06]

  /** `u16`: the low sixteen bits, little endian. */
  function U16(n: nat): (b: seq<Byte>)
    ensures |b| == 2
  {
    [n % 256, n / 256 % 256]
  }

  /** `u32`: the low thirty-two bits, little endian. */
  function U32(n: nat): (b: seq<Byte>)
    ensures |b| == 4
  {
    U16(n) + U16(n / TWO_16)
  }

  function LocalHeader(f: File, crc: Checksum): (b: seq<Byte>)
    ensures |b| == 30
  {
    LOCAL_SIG + U16(20) + U16(0) + U16(0) + U16(0) + U16(0)
    + U32(crc(f.data)) + U32(|f.data|) + U32(|f.data|) + U16(|f.name|) + U16(0)
  }

  function LocalRecord(f: File, crc: Checksum): (b: seq<Byte>)
    ensures |b| == 30 + |f.name| + |f.data|
  {
    LocalHeader(f, crc) + f.name + f.data
  }

  function CentralHeader(f: File, crc: Checksum, offset: nat): (b: seq<Byte>)
    ensures |b| == 46
  {
    CENTRAL_SIG + U16(20) + U16(20) + U16(0) + U16(0) + U16(0) + U16(0)
    + U32(crc(f.data)) + U32(|f.data|) + U32(|f.data|) + U16(|f.name|)
    + U16(0) + U16(0) + U16(0) + U16(0) + U32(0) + U32(offset)
  }

  function CentralRecord(f: File, crc: Checksum, offset: nat): (b: seq<Byte>)
    ensures |b| == 46 + |f.name|
  {
    CentralHeader(f, crc, offset) + f.name
  }

  function EndRecord(count: nat, centralSize: nat, centralOffset: nat): (b: seq<Byte>)
    ensures |b| == 22
  {
    END_SIG + U16(0) + U16(0) + U16(count) + U16(count) + U32(centralSize) + U32(centralOffset) + U16(0)
  }

  function Locals(files: seq<File>, crc: Checksum): seq<Byte> {
    if files == [] then [] else LocalRecord(files[0], crc) + Locals(files[1..], crc)
  }

  /** The central records of files whose first local record starts at `offset`. */
  function Centrals(files: seq<File>, crc: Checksum, offset: nat): seq<Byte> {
    if files == [] then []
    else
      CentralRecord(files[0], crc, offset)
      + Centrals(files[1..], crc, offset + |LocalRecord(files[0], crc)|)
  }

  function Archive(files: seq<File>, crc: Checksum): seq<Byte> {
    var locals, centrals := Locals(files, crc), Centrals(files, crc, 0);
    locals + centrals + EndRecord(|files|, |centrals|, |locals|)
  }

  function Concat(parts: seq<seq<Byte>>): seq<Byte> {
    if parts == [] then [] else parts[0] + Concat(parts[1..])
  }

  lemma {:induction false} ConcatSnoc(parts: seq<seq<Byte>>, last: seq<Byte>)
    ensures Concat(parts + [last]) == Concat(parts) + last
  {
    if parts == [] {
      assert [last][1..] == [];
    } else {
      assert (parts + [last])[1..] == parts[1..] + [last];
      ConcatSnoc(parts[1..], last);
    }
  }

  lemma {:induction false} LocalsSplit(a: seq<File>, b: seq<File>, crc: Checksum)
    ensures Locals(a + b, crc) == Locals(a, crc) + Locals(b, crc)
  {
    if a == [] {
      assert a + b == b;
    } else {
      assert (a + b)[1..] == a[1..] + b;
      LocalsSplit(a[1..], b, crc);
    }
  }

  lemma {:induction false} CentralsSplit(a: seq<File>, b: seq<File>, crc: Checksum, offset: nat)
    ensures Centrals(a + b, crc, offset) == Centrals(a, crc, offset) + Centrals(b, crc, offset + |Locals(a, crc)|)
  {
    if a == [] {
      assert a + b == b;
    } else {
      assert (a + b)[1..] == a[1..] + b;
      CentralsSplit(a[1..], b, crc, offset + |LocalRecord(a[0], crc)|);
    }
  }

  lemma RecordsSnoc(files: seq<File>, f: File, crc: Checksum)
    ensures Locals(files + [f], crc) == Locals(files, crc) + LocalRecord(f, crc)
    ensures Centrals(files + [f], crc, 0) == Centrals(files, crc, 0) + CentralRecord(f, crc, |Locals(files, crc)|)
  {
    hide LocalRecord, CentralRecord;
    LocalsSplit(files, [f], crc);
    CentralsSplit(files, [f], crc, 0);
    assert Locals([f], crc) == LocalRecord(f, crc) + Locals([], crc);
    assert LocalRecord(f, crc) + [] == LocalRecord(f, crc);
    var offset := |Locals(files, crc)|;
    assert Centrals([f], crc, offset)
        == CentralRecord(f, crc, offset) + Centrals([], crc, offset + |LocalRecord(f, crc)|);
    assert CentralRecord(f, crc, offset) + [] == CentralRecord(f, crc, offset);
  }

  /** `writeStoredZip`: the loop of the source over the listed files. */
  method WriteStoredZip(files: seq<File>, crc: Checksum) returns (zip: seq<Byte>)
    ensures zip == Archive(files, crc)
  {
    hide LocalRecord, CentralRecord, EndRecord;
    var locals: seq<seq<Byte>>, centrals: seq<seq<Byte>> := [], [];
    var offset := 0;
    for k := 0 to |files|
      invariant Concat(locals) == Locals(files[..k], crc) && offset == |Concat(locals)|
      invariant Concat(centrals) == Centrals(files[..k], crc, 0)
    {
      var f := files[k];
      var local := LocalRecord(f, crc);
      var central := CentralRecord(f, crc, offset);
      ConcatSnoc(locals, local);
      ConcatSnoc(centrals, central);
      assert files[..k + 1] == files[..k] + [f];
      RecordsSnoc(files[..k], f, crc);
      locals := locals + [local];
      centrals := centrals + [central];
      offset := offset + |local|;
    }
    assert files[..|files|] == files;
    var localBuf, centralBuf := Concat(locals), Concat(centrals);
    zip := localBuf + centralBuf + EndRecord(|files|, |centralBuf|, |localBuf|);
  }
}
