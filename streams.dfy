/** Reading a VCF header from a byte stream (`mayBeGzippedInputStream`, `decodeVCFHeader`,
    `readFully`): gzip is recognised by its signature and inflated, a BCF stream is
    recognised by its magic and its length-prefixed header text is cut out, anything else
    goes to the text codec as it is. */
module Streams {
  import opened Wrappers
  import opened Headers
  import opened Io

  /** The gzip member header begins with ID1 = 0x1F, ID2 = 0x8B (section 2.3.1 of RFC 1952). */
  predicate HasGzipSignature(b: Bytes) {
    |b| >= 2 && b[0] == 0x1F && b[1] == 0x8B
  }

  /** `mayBeGzippedInputStream`: the inflated bytes of a gzip stream, other bytes as they are. */
  function MayBeGzipped(raw: Bytes, io: Io): Result<Bytes> {
    if HasGzipSignature(raw) then io.gunzip(raw) else Success(raw)
  }

  /** `BCFVersion.MAGIC_HEADER_START`: "BCF". */
  const BCF_MAGIC: Bytes := [0x42, 0x43, 0x46]

  predicate HasBcfMagic(b: Bytes) {
    |b| >= 3 && b[..3] == BCF_MAGIC
  }

  /** `read() & 0xFF`: a byte past the end reads as -1, which the mask turns into 0xFF. */
  function Masked(b: int): Byte
    requires -1 <= b < 256
  {
    if b < 0 then 0xFF else b
  }

  function ByteAt(b: Bytes, i: nat): Byte {
    if i < |b| then b[i] else 0xFF
  }

  /** `BCF2Type.INT32.read`: four bytes, least significant first, as a two's-complement `int`. */
  function Int32LE(b0: Byte, b1: Byte, b2: Byte, b3: Byte): Int32 {
    var u := b0 + 0x100 * b1 + 0x1_0000 * b2 + 0x100_0000 * b3;
    if u <= MaxInt32 then u else u - 0x1_0000_0000
  }

  /** The header length that follows the two version bytes. */
  function HeaderLength(b: Bytes): Int32 {
    Int32LE(ByteAt(b, 0), ByteAt(b, 1), ByteAt(b, 2), ByteAt(b, 3))
  }

  function Min(a: nat, b: nat): nat {
    if a <= b then a else b
  }

  /** What `decodeVCFHeader` does after the BCF magic: skip the two version bytes, read the
      length, refuse one that is not positive, then hand exactly that many bytes to the codec. */
  function BcfBody(b: Bytes, io: Io): Result<Option<VcfHeader>> {
    var afterVersion := b[Min(2, |b|)..];
    var len := HeaderLength(afterVersion);
    if len <= 0 then Failure(Error(IoError, "BCF2 header has invalid length"))
    else
      var body := afterVersion[Min(4, |afterVersion|)..];
      if |body| < len then Failure(Error(IoError, "Premeture EOF from inputStream"))
      else io.vcfCodec(body[..len])
  }

  /** What `decodeVCFHeader` does with the (already inflated) bytes: a BCF stream goes
      through `BcfBody`, anything else to the codec whole. */
  function DecodeSniffed(bytes: Bytes, io: Io): Result<Option<VcfHeader>> {
    if HasBcfMagic(bytes) then BcfBody(bytes[3..], io) else io.vcfCodec(bytes)
  }

  /** `decodeVCFHeader(in)` on the bytes of `in`. */
  function VcfHeaderOf(raw: Bytes, io: Io): Result<Option<VcfHeader>> {
    match MayBeGzipped(raw, io)
    case Failure(e) => Failure(e)
    case Success(bytes) => DecodeSniffed(bytes, io)
  }

  /** The four bytes `BCF2Type.INT32.write` produces for `n`. */
  function LE32(n: Int32): (b: Bytes)
    ensures |b| == 4
  {
    var u := if n >= 0 then n else n + 0x1_0000_0000;
    [u % 0x100, (u / 0x100) % 0x100, (u / 0x1_0000) % 0x100, u / 0x100_0000]
  }

  /** Reading back a written length gives the length. */
  lemma HeaderLengthOfLE32(n: Int32, rest: Bytes)
    ensures HeaderLength(LE32(n) + rest) == n
  {
    var u := if n >= 0 then n else n + 0x1_0000_0000;
    var b := LE32(n) + rest;
    var q1, q2, q3 := u / 0x100, u / 0x1_0000, u / 0x100_0000;
    assert u == 0x100 * q1 + u % 0x100;
    assert q1 == 0x100 * (q1 / 0x100) + q1 % 0x100;
    assert q1 / 0x100 == q2;
    assert q2 == 0x100 * (q2 / 0x100) + q2 % 0x100;
    assert q2 / 0x100 == q3;
    assert q2 % 0x100 == (u / 0x1_0000) % 0x100;
    assert u == (u % 0x100) + 0x100 * (q1 % 0x100) + 0x1_0000 * (q2 % 0x100) + 0x100_0000 * q3;
    assert ByteAt(b, 0) == u % 0x100 && ByteAt(b, 1) == q1 % 0x100;
    assert ByteAt(b, 2) == q2 % 0x100 && ByteAt(b, 3) == q3;
  }

  /** A BCF stream framed as the VCF specification lays it out (section 6 of the VCF v4.3
      specification: magic, major and minor version, header length, header text) yields the
      header text, and nothing that follows it reaches the codec. */
  lemma BcfFrameRoundTrip(major: Byte, minor: Byte, text: Bytes, rest: Bytes, io: Io)
    requires 0 < |text| <= MaxInt32
    ensures DecodeSniffed(BCF_MAGIC + [major, minor] + LE32(|text|) + text + rest, io)
         == io.vcfCodec(text)
  {
    var bytes := BCF_MAGIC + [major, minor] + LE32(|text|) + text + rest;
    assert bytes[..3] == BCF_MAGIC;
    var afterVersion := bytes[3..][2..];
    assert afterVersion == LE32(|text|) + (text + rest);
    HeaderLengthOfLE32(|text|, text + rest);
    assert afterVersion[4..] == text + rest;
    assert (text + rest)[..|text|] == text;
  }

  /** A BCF stream cut before the end of its length field is refused: the missing top byte
      reads as 0xFF, which makes the length negative. */
  lemma TruncatedBcfRefused(bytes: Bytes, io: Io)
    requires HasBcfMagic(bytes) && |bytes| < 9
    ensures DecodeSniffed(bytes, io) == Failure(Error(IoError, "BCF2 header has invalid length"))
  {
    var afterVersion := bytes[3..][Min(2, |bytes| - 3)..];
    assert |afterVersion| < 4;
    assert ByteAt(afterVersion, 3) == 0xFF;
  }

  /** A BCF stream whose header text is shorter than its length says is refused, whatever
      the codec would make of the bytes that are there. */
  lemma ShortBcfBodyRefused(major: Byte, minor: Byte, n: Int32, text: Bytes, io: Io)
    requires 0 < n && |text| < n
    ensures DecodeSniffed(BCF_MAGIC + [major, minor] + LE32(n) + text, io)
         == Failure(Error(IoError, "Premeture EOF from inputStream"))
  {
    var bytes := BCF_MAGIC + [major, minor] + LE32(n) + text;
    assert bytes[..3] == BCF_MAGIC;
    var afterVersion := bytes[3..][2..];
    assert afterVersion == LE32(n) + text;
    HeaderLengthOfLE32(n, text);
    assert afterVersion[4..] == text;
  }

  /** A gzip stream is read through its inflated bytes; a stream without the signature
      that is not BCF reaches the codec untouched. */
  lemma GzipIsTransparent(raw: Bytes, io: Io)
    ensures HasGzipSignature(raw) && io.gunzip(raw).Success?
            ==> VcfHeaderOf(raw, io) == DecodeSniffed(io.gunzip(raw).value, io)
    ensures !HasGzipSignature(raw) && !HasBcfMagic(raw) ==> VcfHeaderOf(raw, io) == io.vcfCodec(raw)
  {
  }

  /** The buffered input stream `decodeVCFHeader` reads from: its bytes, the read position
      and the position `mark` recorded. */
  class ByteStream {
    const data: Bytes
    var pos: nat
    var markPos: nat

    predicate Valid()
      reads this
    {
      pos <= |data| && markPos <= |data|
    }

    function Remaining(): nat
      reads this
      requires Valid()
    {
      |data| - pos
    }

    constructor (bytes: Bytes)
      ensures data == bytes && pos == 0 && markPos == 0 && Valid()
    {
      data := bytes;
      pos, markPos := 0, 0;
    }

    /** `mark`. */
    method Mark()
      requires Valid()
      modifies this
      ensures Valid() && pos == old(pos) && markPos == pos
    {
      markPos := pos;
    }

    /** `reset`: back to the mark. */
    method Reset()
      requires Valid()
      modifies this
      ensures Valid() && pos == old(markPos) && markPos == old(markPos)
    {
      pos := markPos;
    }

    /** `read()`: the next byte, or -1 at the end. */
    method ReadByte() returns (b: int)
      requires Valid()
      modifies this
      ensures Valid() && markPos == old(markPos)
      ensures old(pos) < |data| ==> b == data[old(pos)] && pos == old(pos) + 1
      ensures old(pos) == |data| ==> b == -1 && pos == old(pos)
    {
      if pos == |data| {
        return -1;
      }
      b := data[pos];
      pos := pos + 1;
    }

    /** `read(buf, off, len)` with `len > 0`: -1 at the end; otherwise some of the next bytes,
        at least one and at most `len`, into `buf[off..]`. How many is not determined. */
    method Read(buf: array<Byte>, off: nat, len: nat) returns (n: int)
      requires Valid() && 0 < len && off + len <= buf.Length
      modifies this, buf
      ensures Valid() && markPos == old(markPos)
      ensures old(pos) == |data| ==> n == -1 && pos == old(pos) && buf[..] == old(buf[..])
      ensures old(pos) < |data| ==>
                && 1 <= n <= len && pos == old(pos) + n
                && buf[..] == old(buf[..off]) + data[old(pos)..pos] + old(buf[off + n..])
    {
      if pos == |data| {
        return -1;
      }
      n :| 1 <= n <= len && n <= |data| - pos;
      forall k | 0 <= k < n {
        buf[off + k] := data[pos + k];
      }
      pos := pos + n;
      assert buf[..] == old(buf[..off]) + data[old(pos)..pos] + old(buf[off + n..]) by {
        assert forall k :: 0 <= k < buf.Length ==>
          buf[k] == (old(buf[..off]) + data[old(pos)..pos] + old(buf[off + n..]))[k];
      }
    }

    /** `read(buf)` on a buffered stream over bytes that are all there: as many bytes as
        fit and remain. */
    method ReadAvailable(buf: array<Byte>) returns (n: nat)
      requires Valid()
      modifies this, buf
      ensures Valid() && markPos == old(markPos)
      ensures n == Min(buf.Length, |data| - old(pos)) && pos == old(pos) + n
      ensures buf[..] == data[old(pos)..pos] + old(buf[n..])
    {
      n := Min(buf.Length, |data| - pos);
      forall k | 0 <= k < n {
        buf[k] := data[pos + k];
      }
      pos := pos + n;
      assert buf[..] == data[old(pos)..pos] + old(buf[n..]) by {
        assert forall k :: 0 <= k < buf.Length ==> buf[k] == (data[old(pos)..pos] + old(buf[n..]))[k];
      }
    }
  }

  /** `readFully(in, buf, off, len)`: fills `buf[off..off + len]` with the next `len` bytes,
      however the reads are cut, or fails at the end of the stream, having read all of it. */
  method ReadFully(input: ByteStream, buf: array<Byte>, off: nat, len: nat) returns (r: Result<()>)
    requires input.Valid() && off + len <= buf.Length
    modifies input, buf
    ensures input.Valid() && input.markPos == old(input.markPos)
    ensures old(input.Remaining()) >= len ==>
              && r.Success? && input.pos == old(input.pos) + len
              && buf[..] == old(buf[..off]) + input.data[old(input.pos)..input.pos] + old(buf[off + len..])
    ensures old(input.Remaining()) < len ==>
              r == Failure(Error(IoError, "Premeture EOF from inputStream")) && input.pos == |input.data|
  {
    var toRead, o := len, off;
    while toRead > 0
      invariant input.Valid() && input.markPos == old(input.markPos)
      invariant 0 <= toRead && off <= o <= buf.Length && o + toRead == off + len
      invariant input.pos == old(input.pos) + (o - off)
      invariant buf[..] == old(buf[..off]) + input.data[old(input.pos)..input.pos] + old(buf[o..])
      decreases toRead
    {
      ghost var before := buf[..];
      var ret := input.Read(buf, o, toRead);
      if ret < 0 {
        return Failure(Error(IoError, "Premeture EOF from inputStream"));
      }
      assert buf[..] == before[..o] + input.data[input.pos - ret..input.pos] + before[o + ret..];
      assert before[..o] == old(buf[..off]) + input.data[old(input.pos)..input.pos - ret];
      assert before[o + ret..] == old(buf[o + ret..]);
      assert input.data[old(input.pos)..input.pos]
          == input.data[old(input.pos)..input.pos - ret] + input.data[input.pos - ret..input.pos];
      toRead, o := toRead - ret, o + ret;
    }
    assert o == off + len && input.pos == old(input.pos) + len;
    return Success(());
  }

  /** `BCF2Type.INT32.read(in)`: four `read()`s, each masked with 0xFF. */
  method ReadInt32(input: ByteStream) returns (v: Int32)
    requires input.Valid()
    modifies input
    ensures input.Valid() && input.markPos == old(input.markPos)
    ensures v == HeaderLength(input.data[old(input.pos)..])
    ensures input.pos == old(input.pos) + Min(4, old(input.Remaining()))
  {
    ghost var rest := input.data[input.pos..];
    var b0 := input.ReadByte();
    var b1 := input.ReadByte();
    var b2 := input.ReadByte();
    var b3 := input.ReadByte();
    v := Int32LE(Masked(b0), Masked(b1), Masked(b2), Masked(b3));
    assert Masked(b0) == ByteAt(rest, 0) && Masked(b1) == ByteAt(rest, 1);
    assert Masked(b2) == ByteAt(rest, 2) && Masked(b3) == ByteAt(rest, 3);
  }

  /** The BCF branch of `decodeVCFHeader`, from just after the magic. */
  method ReadBcfBody(input: ByteStream, io: Io) returns (r: Result<Option<VcfHeader>>)
    requires input.Valid()
    modifies input
    ensures r == BcfBody(old(input.data[input.pos..]), io)
  {
    ghost var b := input.data[input.pos..];
    var major := input.ReadByte();
    var minor := input.ReadByte();
    ghost var afterVersion := b[Min(2, |b|)..];
    assert input.data[input.pos..] == afterVersion;
    var headerSize := ReadInt32(input);
    if headerSize <= 0 {
      return Failure(Error(IoError, "BCF2 header has invalid length"));
    }
    ghost var body := afterVersion[Min(4, |afterVersion|)..];
    assert input.data[input.pos..] == body;
    var headerBytes := new Byte[headerSize](_ => 0);
    var done := ReadFully(input, headerBytes, 0, headerSize);
    if done.Failure? {
      return Failure(done.error);
    }
    assert headerBytes[..] == body[..headerSize];
    return io.vcfCodec(headerBytes[..]);
  }

  /** `in.mark(2)` then `in.read(magicBytes)`: whether the three bytes read are the BCF magic;
      without it the stream is reset to where it was. */
  method SniffMagic(input: ByteStream) returns (isBcf: bool)
    requires input.Valid() && input.pos == 0
    modifies input
    ensures input.Valid()
    ensures isBcf == HasBcfMagic(input.data)
    ensures input.pos == if isBcf then 3 else 0
  {
    input.Mark();
    var magic := new Byte[3](_ => 0);
    ghost var zeros := magic[..];
    var got := input.ReadAvailable(magic);
    assert magic[..] == input.data[..got] + zeros[got..];
    assert magic[2] == if got == 3 then input.data[2] else 0;
    if magic[..] != BCF_MAGIC {
      input.Reset();
      return false;
    }
    assert got == 3;
    assert input.data[..3] == BCF_MAGIC;
    return true;
  }

  /** `decodeVCFHeader(in)`: after the optional inflation, look for the BCF magic; without
      it, decode the text from the start; with it, decode the length-prefixed header. */
  method DecodeVcfHeader(raw: Bytes, io: Io) returns (r: Result<Option<VcfHeader>>)
    ensures r == VcfHeaderOf(raw, io)
  {
    var unzipped := MayBeGzipped(raw, io);
    if unzipped.Failure? {
      return Failure(unzipped.error);
    }
    var input := new ByteStream(unzipped.value);
    var isBcf := SniffMagic(input);
    if !isBcf {
      assert input.data[input.pos..] == input.data;
      return io.vcfCodec(input.data[input.pos..]);
    }
    r := ReadBcfBody(input, io);
  }
}
