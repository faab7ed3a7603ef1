/**
 * RecordDecoder: one 32-byte DAT record read as eight unsigned 32-bit
 * little-endian integers, as `struct.unpack('<8I', block)` does.
 */
module RecordDecoder {
  import opened Wrappers

  /** One byte of the file body. */
  type byte = b: int | 0 <= b < 0x100

  /** The value range of the struct format code `I` (unsigned 32-bit). */
  type u32 = x: int | 0 <= x < 0x1_0000_0000

  /** Size in bytes of every record of the file. */
  const RecordSize: nat := 32

  /** Number of `I` fields in the format `'<8I'`. */
  const FieldsPerRecord: nat := 8

  /** The only way `struct.unpack` fails here: the buffer is not 32 bytes long. */
  datatype DecodeError = StructError

  /** The little-endian value of the four bytes b[off], .., b[off + 3]. */
  function WordAt(b: seq<byte>, off: nat): u32
    requires off + 4 <= |b|
  {
    b[off] as int + 0x100 * b[off + 1] as int + 0x1_0000 * b[off + 2] as int
      + 0x100_0000 * b[off + 3] as int
  }

  /** Consecutive little-endian words of a buffer whose length is a multiple of 4. */
  function DecodeWords(b: seq<byte>): (ws: seq<u32>)
    requires |b| % 4 == 0
    ensures |ws| == |b| / 4
    decreases |b|
  {
    if b == [] then [] else [WordAt(b, 0)] + DecodeWords(b[4..])
  }

  /** The four little-endian bytes of a word. */
  function EncodeWord(w: u32): (b: seq<byte>)
    ensures |b| == 4
  {
    [w % 0x100, w / 0x100 % 0x100, w / 0x1_0000 % 0x100, w / 0x100_0000]
  }

  function EncodeWords(ws: seq<u32>): (b: seq<byte>)
    ensures |b| == 4 * |ws|
  {
    if ws == [] then [] else EncodeWord(ws[0]) + EncodeWords(ws[1..])
  }

  /**
   * `struct.unpack('<8I', block)`: eight words when the block holds exactly
   * 32 bytes, `struct.error` otherwise.
   */
  function Unpack(block: seq<byte>): (r: Result<seq<u32>, DecodeError>)
    ensures r.Success? <==> |block| == RecordSize
    ensures r.Success? ==> |r.value| == FieldsPerRecord
  {
    if |block| != RecordSize then Failure(StructError) else Success(DecodeWords(block))
  }

  /**
   * Field k of an unpacked record is
   * block[4k] + block[4k+1]*256 + block[4k+2]*256^2 + block[4k+3]*256^3.
   */
  lemma UnpackFields(block: seq<byte>)
    requires |block| == RecordSize
    ensures forall k :: 0 <= k < FieldsPerRecord ==> Unpack(block).value[k] == WordAt(block, 4 * k)
  {
    FieldsAreWords(block);
  }

  /** `struct.pack('<8I', *fields)`, the inverse of Unpack. */
  function Pack(fields: seq<u32>): (block: seq<byte>)
    requires |fields| == FieldsPerRecord
    ensures |block| == RecordSize
  {
    EncodeWords(fields)
  }

  lemma WordRoundTrip(w: u32)
    ensures WordAt(EncodeWord(w), 0) == w
  {
    var b := EncodeWord(w);
    assert w / 0x100_0000 == w / 0x1_0000 / 0x100;
    assert w / 0x1_0000 == w / 0x100 / 0x100;
  }

  lemma BytesRoundTrip(b: seq<byte>)
    requires |b| == 4
    ensures EncodeWord(WordAt(b, 0)) == b
  {
    var w := WordAt(b, 0);
    assert w % 0x100 == b[0];
    assert w / 0x100 == b[1] as int + 0x100 * b[2] as int + 0x1_0000 * b[3] as int;
    assert w / 0x1_0000 == b[2] as int + 0x100 * b[3] as int;
    assert w / 0x100_0000 == b[3];
  }

  /** Dropping the first word shifts every later word by four bytes. */
  lemma WordAtShift(b: seq<byte>, off: nat)
    requires 4 <= |b| && off + 4 <= |b| - 4
    ensures WordAt(b[4..], off) == WordAt(b, off + 4)
  {
    var t := b[4..];
    assert t[off] == b[off + 4] && t[off + 1] == b[off + 5];
    assert t[off + 2] == b[off + 6] && t[off + 3] == b[off + 7];
  }

  /** Field k of a decoded buffer is the word stored at byte offset 4k. */
  lemma {:induction false} FieldIsWord(b: seq<byte>, k: nat)
    requires |b| % 4 == 0 && k < |b| / 4
    ensures DecodeWords(b)[k] == WordAt(b, 4 * k)
    decreases k
  {
    if k > 0 {
      assert DecodeWords(b)[k] == DecodeWords(b[4..])[k - 1];
      FieldIsWord(b[4..], k - 1);
      WordAtShift(b, 4 * (k - 1));
    }
  }

  lemma FieldsAreWords(b: seq<byte>)
    requires |b| % 4 == 0
    ensures forall k :: 0 <= k < |b| / 4 ==> DecodeWords(b)[k] == WordAt(b, 4 * k)
  {
    forall k | 0 <= k < |b| / 4
      ensures DecodeWords(b)[k] == WordAt(b, 4 * k)
    {
      FieldIsWord(b, k);
    }
  }

  /** Decoding what was encoded gives back the words. */
  lemma {:induction false} DecodeEncode(ws: seq<u32>)
    ensures DecodeWords(EncodeWords(ws)) == ws
  {
    if ws != [] {
      var b := EncodeWords(ws);
      WordRoundTrip(ws[0]);
      assert b[..4] == EncodeWord(ws[0]);
      assert b[4..] == EncodeWords(ws[1..]);
      DecodeEncode(ws[1..]);
    }
  }

  /** Encoding what was decoded gives back the bytes. */
  lemma {:induction false} EncodeDecode(b: seq<byte>)
    requires |b| % 4 == 0
    ensures EncodeWords(DecodeWords(b)) == b
    decreases |b|
  {
    if b != [] {
      BytesRoundTrip(b[..4]);
      assert WordAt(b[..4], 0) == WordAt(b, 0);
      EncodeDecode(b[4..]);
      assert b == b[..4] + b[4..];
    }
  }

  /** Unpacking a packed record yields the eight fields unchanged. */
  lemma UnpackPack(fields: seq<u32>)
    requires |fields| == FieldsPerRecord
    ensures Unpack(Pack(fields)) == Success(fields)
  {
    DecodeEncode(fields);
  }

  /** A block that unpacks is re-created byte for byte by packing its fields. */
  lemma PackUnpack(block: seq<byte>)
    requires |block| == RecordSize
    ensures Unpack(block).Success? && Pack(Unpack(block).value) == block
  {
    EncodeDecode(block);
  }
}
