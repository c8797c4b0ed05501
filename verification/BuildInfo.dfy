/**
The build-information descriptor (boot/kernel-image-metadata/src/lib.rs:90-146): a
20-byte header (magic, version, header size, payload length, CRC-32), the payload, and
zero padding.  Whether bytes are valid UTF-8 is a parameter of the decoder.
*/
module BuildInfo {
  import opened Prelude
  import opened Bytes
  import opened Crc
  import CrcDivision

  const MAGIC: seq<Byte> := [0x58, 0x4b, 0x42, 0x55, 0x49, 0x4c, 0x44, 0]
  const VERSION: nat := 1
  const HEADER: nat := 20

  datatype MetadataError =
    | SectionTooSmall
    | PayloadTooLarge
    | InvalidMagic
    | UnsupportedVersion
    | InvalidHeaderSize
    | InvalidPayloadSize
    | ChecksumMismatch
    | InvalidUtf8

  // ---- the format ---------------------------------------------------------------------------

  /** The header that describes `payload`. */
  function Header(payload: seq<Byte>): (r: seq<Byte>)
    ensures |r| == HEADER
  {
    MAGIC + Le(2, VERSION) + Le(2, HEADER) + Le(4, |payload|) + Le(4, Checksum(payload))
  }

  /** `d` holds exactly this payload: its header, then its bytes; what follows is free. */
  predicate Holds(d: seq<Byte>, payload: seq<Byte>) {
    |payload| < TWO32 && Header(payload) + payload <= d
  }

  /** The decoder, check by check. */
  function Decode(d: seq<Byte>, utf8: seq<Byte> -> bool): Result<seq<Byte>, MetadataError> {
    if |d| < HEADER then Err(SectionTooSmall)
    else if d[..8] != MAGIC then Err(InvalidMagic)
    else if Number(d[8..10]) != VERSION then Err(UnsupportedVersion)
    else if Number(d[10..12]) != HEADER then Err(InvalidHeaderSize)
    else
      var end := HEADER + Number(d[12..16]);
      if end > |d| then Err(InvalidPayloadSize)
      else if Checksum(d[HEADER..end]) != Number(d[16..20]) then Err(ChecksumMismatch)
      else if !utf8(d[HEADER..end]) then Err(InvalidUtf8)
      else Ok(d[HEADER..end])
  }

  lemma FiveParts(d: seq<Byte>, m: seq<Byte>, v: seq<Byte>, s: seq<Byte>, n: seq<Byte>, c: seq<Byte>)
    requires |m| == 8 && |v| == |s| == 2 && |n| == |c| == 4 && |d| >= HEADER
    ensures d[..HEADER] == m + v + s + n + c <==>
              d[..8] == m && d[8..10] == v && d[10..12] == s && d[12..16] == n && d[16..20] == c
  {
    var h := d[..HEADER];
    assert h[..8] == d[..8] && h[8..10] == d[8..10] && h[10..12] == d[10..12];
    assert h[12..16] == d[12..16] && h[16..20] == d[16..20];
    var p := m + v + s + n + c;
    assert p[..8] == m && p[8..10] == v && p[10..12] == s && p[12..16] == n && p[16..20] == c;
    assert h == h[..8] + h[8..10] + h[10..12] + h[12..16] + h[16..20];
  }

  /** The fields of a descriptor are those of the payload's header. */
  lemma HeaderFields(d: seq<Byte>, payload: seq<Byte>)
    requires |d| >= HEADER
    ensures d[..HEADER] == Header(payload) <==>
              && d[..8] == MAGIC && d[8..10] == Le(2, VERSION) && d[10..12] == Le(2, HEADER)
              && d[12..16] == Le(4, |payload|) && d[16..20] == Le(4, Checksum(payload))
  {
    FiveParts(d, MAGIC, Le(2, VERSION), Le(2, HEADER), Le(4, |payload|), Le(4, Checksum(payload)));
  }

  lemma HoldsFields(d: seq<Byte>, payload: seq<Byte>)
    ensures Holds(d, payload) <==>
              && |payload| < TWO32 && |d| >= HEADER + |payload|
              && d[..HEADER] == Header(payload) && d[HEADER..HEADER + |payload|] == payload
  {
    var n := HEADER + |payload|;
    var whole := Header(payload) + payload;
    if |d| >= n {
      assert d[..n] == d[..HEADER] + d[HEADER..n];
      assert whole[..HEADER] == Header(payload) && whole[HEADER..] == payload;
      assert d[..n][..HEADER] == d[..HEADER] && d[..n][HEADER..] == d[HEADER..n];
      assert whole <= d <==> d[..n] == whole;
    }
  }

  /** A two-byte field reads as `x` exactly when it is the encoding of `x`. */
  lemma Field2(b: seq<Byte>, x: nat)
    requires |b| == 2 && x < 0x1_0000
    ensures Number(b) == x <==> b == Le(2, x)
  {
    Pow2Values();
    ReadsAs(b, x);
  }

  lemma Field4(b: seq<Byte>, x: nat)
    requires |b| == 4 && x < TWO32
    ensures Number(b) == x <==> b == Le(4, x)
  {
    Pow2Values();
    ReadsAs(b, x);
  }

  lemma Bound4(b: seq<Byte>)
    requires |b| == 4
    ensures Number(b) < TWO32
  {
    Pow2Values();
    NumberBound(b);
  }

  lemma DecodeSound(d: seq<Byte>, utf8: seq<Byte> -> bool, payload: seq<Byte>)
    requires Decode(d, utf8) == Ok(payload)
    ensures Holds(d, payload) && utf8(payload)
  {
    Field2(d[8..10], VERSION);
    Field2(d[10..12], HEADER);
    Bound4(d[12..16]);
    Field4(d[12..16], |payload|);
    Field4(d[16..20], Checksum(payload));
    HeaderFields(d, payload);
    HoldsFields(d, payload);
  }

  lemma DecodeComplete(d: seq<Byte>, utf8: seq<Byte> -> bool, payload: seq<Byte>)
    requires Holds(d, payload) && utf8(payload)
    ensures Decode(d, utf8) == Ok(payload)
  {
    HoldsFields(d, payload);
    HeaderFields(d, payload);
    Field2(d[8..10], VERSION);
    Field2(d[10..12], HEADER);
    Field4(d[12..16], |payload|);
    Field4(d[16..20], Checksum(payload));
  }

  /** Decoding succeeds on exactly the descriptors that hold a valid payload, and
      returns that payload. */
  lemma DecodesExactly(d: seq<Byte>, utf8: seq<Byte> -> bool, payload: seq<Byte>)
    ensures Decode(d, utf8) == Ok(payload) <==> Holds(d, payload) && utf8(payload)
  {
    if Decode(d, utf8) == Ok(payload) {
      DecodeSound(d, utf8, payload);
    }
    if Holds(d, payload) && utf8(payload) {
      DecodeComplete(d, utf8, payload);
    }
  }

  // ---- the encoder --------------------------------------------------------------------------

  /** The encoder: on an error the descriptor is untouched; otherwise it holds the
      payload and the rest is zero. */
  method EncodeBuildInfo(payload: seq<Byte>, descriptor: array<Byte>) returns (r: Result<nat, MetadataError>)
    modifies descriptor
    ensures r == if descriptor.Length < HEADER then Err(SectionTooSmall)
                 else if |payload| >= TWO32 || HEADER + |payload| > descriptor.Length then Err(PayloadTooLarge)
                 else Ok(HEADER + |payload|)
    ensures r.Err? ==> descriptor[..] == old(descriptor[..])
    ensures r.Ok? ==> Holds(descriptor[..], payload)
    ensures r.Ok? ==> forall i :: r.value <= i < descriptor.Length ==> descriptor[i] == 0
  {
    if descriptor.Length < HEADER {
      return Err(SectionTooSmall);
    }
    if |payload| >= TWO32 {
      return Err(PayloadTooLarge);
    }
    var end := HEADER + |payload|;
    if end > descriptor.Length {
      return Err(PayloadTooLarge);
    }
    forall i | 0 <= i < descriptor.Length {
      descriptor[i] := 0;
    }
    ghost var zeros := descriptor[..];
    Copy(descriptor, 0, MAGIC);
    Copy(descriptor, 8, Le(2, VERSION));
    Copy(descriptor, 10, Le(2, HEADER));
    Copy(descriptor, 12, Le(4, |payload|));
    var crc := CrcDivision.Crc32(payload);
    Copy(descriptor, 16, Le(4, crc));
    Copy(descriptor, HEADER, payload);
    Assembled(zeros, MAGIC, Le(2, VERSION), Le(2, HEADER), Le(4, |payload|), Le(4, crc), payload);
    assert descriptor[..] == Header(payload) + payload + zeros[end..];
    return Ok(end);
  }

  /** `s` with `bytes` written at `at`. */
  function Splice(s: seq<Byte>, at: nat, bytes: seq<Byte>): (r: seq<Byte>)
    requires at + |bytes| <= |s|
    ensures |r| == |s|
  {
    s[..at] + bytes + s[at + |bytes|..]
  }

  lemma SpliceNext(done: seq<Byte>, z: seq<Byte>, bytes: seq<Byte>)
    requires |done| + |bytes| <= |z|
    ensures Splice(done + z[|done|..], |done|, bytes) == (done + bytes) + z[|done + bytes|..]
  {
  }

  /** Writing the parts one behind the other lays them end to end. */
  lemma Assembled(z: seq<Byte>, m: seq<Byte>, v: seq<Byte>, s: seq<Byte>, n: seq<Byte>, c: seq<Byte>, p: seq<Byte>)
    requires |m| == 8 && |v| == |s| == 2 && |n| == |c| == 4 && HEADER + |p| <= |z|
    ensures Splice(Splice(Splice(Splice(Splice(Splice(z, 0, m), 8, v), 10, s), 12, n), 16, c), HEADER, p)
            == m + v + s + n + c + p + z[HEADER + |p|..]
  {
    assert [] + z[0..] == z;
    SpliceNext([], z, m);
    assert [] + m == m;
    SpliceNext(m, z, v);
    SpliceNext(m + v, z, s);
    SpliceNext(m + v + s, z, n);
    SpliceNext(m + v + s + n, z, c);
    SpliceNext(m + v + s + n + c, z, p);
  }

  /** `copy_from_slice` into `descriptor[at..]`. */
  method Copy(descriptor: array<Byte>, at: nat, bytes: seq<Byte>)
    requires at + |bytes| <= descriptor.Length
    modifies descriptor
    ensures descriptor[..] == Splice(old(descriptor[..]), at, bytes)
  {
    forall i | at <= i < at + |bytes| {
      descriptor[i] := bytes[i - at];
    }
  }

  // ---- round trip and error detection -------------------------------------------------------

  /** Whatever holds a payload decodes to it. */
  lemma RoundTrip(d: seq<Byte>, utf8: seq<Byte> -> bool, payload: seq<Byte>)
    requires Holds(d, payload) && utf8(payload)
    ensures Decode(d, utf8) == Ok(payload)
    ensures forall p :: Holds(d, p) ==> p == payload
  {
    DecodesExactly(d, utf8, payload);
    forall p | Holds(d, p) ensures p == payload {
      DecodesExactly(d, _ => true, p);
      DecodesExactly(d, _ => true, payload);
    }
  }

  /** Any change confined to at most four consecutive payload bytes is rejected. */
  lemma CorruptionDetected(pre: seq<Byte>, u: seq<Byte>, v: seq<Byte>, post: seq<Byte>, rest: seq<Byte>,
                           utf8: seq<Byte> -> bool)
    requires |u| == |v| <= 4 && u != v
    requires |pre + (u + post)| < TWO32
    ensures Decode(Header(pre + (u + post)) + (pre + (v + post)) + rest, utf8) == Err(ChecksumMismatch)
  {
    var good, bad := pre + (u + post), pre + (v + post);
    var d := Header(good) + bad + rest;
    assert d[..HEADER] == Header(good);
    HeaderFields(d, good);
    Field2(d[8..10], VERSION);
    Field2(d[10..12], HEADER);
    Field4(d[12..16], |good|);
    Field4(d[16..20], Checksum(good));
    assert d[HEADER..HEADER + |bad|] == bad;
    FourBytesChangeChecksum(pre, u, v, post);
  }

  // ---- the format, byte by byte --------------------------------------------------------------

  /** What a reader of another program finds in a descriptor: "XKBUILD" and a zero byte,
      version 1, header size 20, then length and checksum, least significant byte first. */
  lemma WireFormat(d: seq<Byte>, payload: seq<Byte>)
    requires Holds(d, payload)
    ensures |d| >= 20 + |payload|
    ensures d[..12] == [0x58, 0x4b, 0x42, 0x55, 0x49, 0x4c, 0x44, 0x00, 1, 0, 20, 0]
    ensures Weighted(d[12], d[13], d[14], d[15]) == |payload|
    ensures Weighted(d[16], d[17], d[18], d[19]) == Checksum(payload)
    ensures d[20..20 + |payload|] == payload
  {
    HoldsFields(d, payload);
    HeaderFields(d, payload);
    Fixed(d);
    Field4(d[12..16], |payload|);
    FourBytes(d[12..16]);
    Field4(d[16..20], Checksum(payload));
    FourBytes(d[16..20]);
  }

  lemma Fixed(d: seq<Byte>)
    requires |d| >= 12 && d[..8] == MAGIC && d[8..10] == Le(2, VERSION) && d[10..12] == Le(2, HEADER)
    ensures d[..12] == [0x58, 0x4b, 0x42, 0x55, 0x49, 0x4c, 0x44, 0x00, 1, 0, 20, 0]
  {
    assert d[..12] == d[..8] + d[8..10] + d[10..12];
    assert Le(2, 1) == [1] + Le(1, 0) && Le(2, 20) == [20] + Le(1, 0) && Le(1, 0) == [0] + Le(0, 0);
  }

  /** Any change to a byte of a fixed header field is reported as that field's error. */
  lemma HeaderDamage(d: seq<Byte>, payload: seq<Byte>, i: nat, x: Byte, utf8: seq<Byte> -> bool)
    requires Holds(d, payload) && i < 12 && x != d[i]
    ensures Decode(d[i := x], utf8) ==
            Err(if i < 8 then InvalidMagic else if i < 10 then UnsupportedVersion else InvalidHeaderSize)
  {
    var e := d[i := x];
    HoldsFields(d, payload);
    HeaderFields(d, payload);
    Field2(e[8..10], VERSION);
    Field2(e[10..12], HEADER);
    if i < 8 {
      assert e[..8][i] == x && d[..8][i] != x;
    } else {
      assert e[..8] == d[..8];
      if i < 10 {
        assert e[8..10][i - 8] == x && d[8..10][i - 8] != x;
      } else {
        assert e[8..10] == d[8..10];
        assert e[10..12][i - 10] == x && d[10..12][i - 10] != x;
      }
    }
  }

  /** A changed byte of the checksum field is a mismatch. */
  lemma ChecksumDamage(d: seq<Byte>, payload: seq<Byte>, i: nat, x: Byte, utf8: seq<Byte> -> bool)
    requires Holds(d, payload) && 16 <= i < 20 && x != d[i]
    ensures Decode(d[i := x], utf8) == Err(ChecksumMismatch)
  {
    var e := d[i := x];
    HoldsFields(d, payload);
    HeaderFields(d, payload);
    assert e[..8] == d[..8] && e[8..10] == d[8..10] && e[10..12] == d[10..12] && e[12..16] == d[12..16];
    assert e[16..20][i - 16] == x && d[16..20][i - 16] != x;
    Field2(d[8..10], VERSION);
    Field2(d[10..12], HEADER);
    Field4(d[12..16], |payload|);
    Field4(e[16..20], Checksum(payload));
    assert e[HEADER..HEADER + |payload|] == d[HEADER..HEADER + |payload|];
  }

  /** A descriptor cut short is too small for its header or for its payload. */
  lemma Truncation(d: seq<Byte>, payload: seq<Byte>, k: nat, utf8: seq<Byte> -> bool)
    requires Holds(d, payload) && k < 20 + |payload|
    ensures k <= |d| && Decode(d[..k], utf8) == Err(if k < 20 then SectionTooSmall else InvalidPayloadSize)
  {
    HoldsFields(d, payload);
    HeaderFields(d, payload);
    if k >= 20 {
      var e := d[..k];
      assert e[..8] == d[..8] && e[8..10] == d[8..10] && e[10..12] == d[10..12] && e[12..16] == d[12..16];
      Field2(d[8..10], VERSION);
      Field2(d[10..12], HEADER);
      Field4(d[12..16], |payload|);
    }
  }

  /** An intact payload that is no text is reported as such. */
  lemma NotText(d: seq<Byte>, payload: seq<Byte>, utf8: seq<Byte> -> bool)
    requires Holds(d, payload) && !utf8(payload)
    ensures Decode(d, utf8) == Err(InvalidUtf8)
  {
    HoldsFields(d, payload);
    HeaderFields(d, payload);
    Field2(d[8..10], VERSION);
    Field2(d[10..12], HEADER);
    Field4(d[12..16], |payload|);
    Field4(d[16..20], Checksum(payload));
  }
}
