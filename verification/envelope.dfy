/** The binary envelope both copies of `encode_json_and_file` write:
    a 1-byte flag field, the JSON length and the payload length as 8-byte
    signed integers, then the JSON bytes, then the payload bytes. The header
    is packed with `'B8s8s'`, which has no padding, so it is 17 bytes long.
    `Decode` is the reader of that layout; the repository has none, and it
    is here as the inverse the layout promises. */
module Envelope {
  import opened Results
  import opened StructPack

  const FLAG_SIZE: nat := 1
  const LONG_SIZE: nat := 8
  const HEADER_SIZE: nat := FLAG_SIZE + 2 * LONG_SIZE

  /** `has_binary | (has_json << 1)`: bit 0 says there is a payload,
      bit 1 says there is JSON, and no other bit is ever set. */
  function Flags(jsonLength: nat, binaryLength: nat): (f: bv8)
    ensures f & 1 == 1 <==> binaryLength > 0
    ensures (f >> 1) & 1 == 1 <==> jsonLength > 0
    ensures f & 0xFC == 0
  {
    var hasBinary: bv8 := if binaryLength > 0 then 1 else 0;
    var hasJson: bv8 := if jsonLength > 0 then 1 else 0;
    hasBinary | (hasJson << 1)
  }

  predicate HasBinary(flags: byte) {
    (flags as bv8) & 1 == 1
  }

  predicate HasJson(flags: byte) {
    ((flags as bv8) >> 1) & 1 == 1
  }

  /** The flag byte has no bits beyond the two above. */
  predicate OnlyKnownFlags(flags: byte) {
    (flags as bv8) & 0xFC == 0
  }

  /** The common part of both encoders, from the JSON bytes and the payload
      to the envelope. It fails only where `struct.pack('q', …)` does: a
      length that does not fit in 64 signed bits. */
  function Encode(json: seq<byte>, payload: seq<byte>): (r: Result<seq<byte>, StructError>)
    ensures r.Success? <==> |json| <= INT64_MAX && |payload| <= INT64_MAX
    ensures r.Success? ==>
      var b := r.value;
      && |b| == HEADER_SIZE + |json| + |payload|
      && (HasBinary(b[0]) <==> |payload| > 0)
      && (HasJson(b[0]) <==> |json| > 0)
      && OnlyKnownFlags(b[0])
      && UnpackInt64(b[1..9]) == |json|
      && UnpackInt64(b[9..17]) == |payload|
      && b[HEADER_SIZE..HEADER_SIZE + |json|] == json
      && b[HEADER_SIZE + |json|..] == payload
  {
    var jsonLength :- PackInt64(|json|);
    var binaryLength :- PackInt64(|payload|);
    var flags := Flags(|json|, |payload|);
    assert (flags as int) as bv8 == flags;
    var jsonField, binaryField := FixedBytes(jsonLength, LONG_SIZE), FixedBytes(binaryLength, LONG_SIZE);
    assert jsonField == jsonLength[..LONG_SIZE] == jsonLength;
    assert binaryField == binaryLength[..LONG_SIZE] == binaryLength;
    Success(Assemble(flags as int, jsonField, binaryField, json, payload))
  }

  /** `header + json_bytes + file_bytes`, the header being the flag byte
      and the two 8-byte length fields: each part sits at its fixed place. */
  function Assemble(flags: byte, jsonLength: seq<byte>, binaryLength: seq<byte>, json: seq<byte>, payload: seq<byte>): (b: seq<byte>)
    requires |jsonLength| == LONG_SIZE && |binaryLength| == LONG_SIZE
    ensures |b| == HEADER_SIZE + |json| + |payload|
    ensures b[0] == flags && b[1..9] == jsonLength && b[9..17] == binaryLength
    ensures b[HEADER_SIZE..HEADER_SIZE + |json|] == json && b[HEADER_SIZE + |json|..] == payload
  {
    [flags] + jsonLength + binaryLength + json + payload
  }

  /** A byte string of at least a header's length is the assembly of its
      own parts, wherever the JSON section ends. */
  lemma AssembleParts(b: seq<byte>, n: nat)
    requires HEADER_SIZE + n <= |b|
    ensures Assemble(b[0], b[1..9], b[9..17], b[HEADER_SIZE..HEADER_SIZE + n], b[HEADER_SIZE + n..]) == b
  {
    assert b == [b[0]] + b[1..9] + b[9..17] + b[HEADER_SIZE..HEADER_SIZE + n] + b[HEADER_SIZE + n..];
  }

  /** What a reader gets back from an envelope. */
  datatype Decoded = Decoded(json: seq<byte>, payload: seq<byte>)

  datatype DecodeError = TooShort | NegativeLength | LengthMismatch | FlagsMismatch

  /** Reads an envelope back: the header's two lengths must be non-negative
      and account for every byte after the header, and the flag byte must
      be the one the lengths call for. */
  function Decode(b: seq<byte>): (r: Result<Decoded, DecodeError>)
    ensures r.Success? ==> |b| == HEADER_SIZE + |r.value.json| + |r.value.payload|
  {
    if |b| < HEADER_SIZE then Failure(TooShort)
    else
      var jsonLength := UnpackInt64(b[1..9]);
      var binaryLength := UnpackInt64(b[9..17]);
      if jsonLength < 0 || binaryLength < 0 then Failure(NegativeLength)
      else if HEADER_SIZE + jsonLength + binaryLength != |b| then Failure(LengthMismatch)
      else if b[0] != Flags(jsonLength, binaryLength) as int then Failure(FlagsMismatch)
      else Success(Decoded(b[HEADER_SIZE..HEADER_SIZE + jsonLength], b[HEADER_SIZE + jsonLength..]))
  }

  /** Round trip: slicing an envelope by its header's lengths gives back the
      JSON bytes and the payload exactly. */
  lemma DecodeEncode(json: seq<byte>, payload: seq<byte>)
    requires |json| <= INT64_MAX && |payload| <= INT64_MAX
    ensures Decode(Encode(json, payload).value) == Success(Decoded(json, payload))
  {
    var b := Encode(json, payload).value;
    assert (b[0] as bv8) & 0xFC == 0;
    assert b[0] == Flags(|json|, |payload|) as int;
  }

  /** The other direction: every byte string the reader accepts is exactly
      the envelope the encoder writes for what was read, so the encoder
      produces every well-formed envelope and nothing else. */
  lemma EncodeDecode(b: seq<byte>)
    requires Decode(b).Success?
    ensures Encode(Decode(b).value.json, Decode(b).value.payload) == Success(b)
  {
    var d := Decode(b).value;
    var n := UnpackInt64(b[1..9]);
    PackUnpackInt64(b[1..9]);
    PackUnpackInt64(b[9..17]);
    assert d.json == b[HEADER_SIZE..HEADER_SIZE + n];
    assert FixedBytes(b[1..9], LONG_SIZE) == b[1..9] && FixedBytes(b[9..17], LONG_SIZE) == b[9..17];
    assert Flags(|d.json|, |d.payload|) as int == b[0];
    AssembleParts(b, n);
  }
}
