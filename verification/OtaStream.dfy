// What a model update makes of the bytes it is sent, however they are cut into chunks.
module OtaStream {
  import opened Errno
  import opened Bytes
  import opened StoreImage
  import opened SlotImage

  const NAME_LEN := 32

  // ---- names ----

  // The C string in a buffer.
  function CStr(s: seq<u8>): seq<u8> {
    if s == [] || s[0] == 0 then [] else [s[0]] + CStr(s[1..])
  }

  // strncmp(a, b, n) == 0
  predicate StrnSame(a: seq<u8>, b: seq<u8>, n: nat)
    requires n <= |a| && n <= |b|
    decreases n
  {
    n == 0 || (a[0] == b[0] && (a[0] == 0 || StrnSame(a[1..], b[1..], n - 1)))
  }

  lemma {:induction false} StrnSameMeansSameName(a: seq<u8>, b: seq<u8>, n: nat)
    requires |a| == |b| == n
    ensures StrnSame(a, b, n) <==> CStr(a) == CStr(b)
    decreases n
  {
    if n > 0 && a[0] == b[0] && a[0] != 0 {
      StrnSameMeansSameName(a[1..], b[1..], n - 1);
      assert CStr(a)[1..] == CStr(a[1..]) && CStr(b)[1..] == CStr(b[1..]);
    } else if n > 0 && a[0] != 0 && b[0] != 0 {
      assert CStr(a)[0] == a[0] && CStr(b)[0] == b[0];
    }
  }

  // strncpy of at most 31 characters into a zeroed buffer of 32.
  function NameField(name: seq<u8>): (r: seq<u8>)
    ensures |r| == NAME_LEN
  {
    var kept := if |name| < NAME_LEN then name else name[..NAME_LEN - 1];
    kept + seq(NAME_LEN - |kept|, _ => 0)
  }

  // ---- the header checks ----

  function ModelSize(h: seq<u8>): u32 requires |h| >= SYNM_HDR { Rd32(h, 40) }
  function HeaderCrc(h: seq<u8>): u32 requires |h| >= SYNM_HDR { Rd32(h, 44) }

  // What is wrong with the header of an update announced with this size and name.
  function HeaderFault(h: seq<u8>, total: nat, name: seq<u8>): Option<Errno>
    requires |h| >= SYNM_HDR && |name| == NAME_LEN
  {
    if Rd32(h, 0) != SYNM_MAGIC || Rd32(h, 4) != SYNM_VERSION then Some(EILSEQ)
    else if ModelSize(h) != total - SYNM_HDR then Some(EMSGSIZE)
    else if !StrnSame(h[8..40], name, NAME_LEN) then Some(EINVAL)
    else None
  }

  // A header passes exactly when it says SYNM and version 1, its payload fills the
  // announced size, and its name is the announced one.
  lemma HeaderPassesIff(h: seq<u8>, total: nat, name: seq<u8>)
    requires |h| >= SYNM_HDR && |name| == NAME_LEN
    ensures HeaderFault(h, total, name).None? <==>
              && h[0..4] == [0x53, 0x59, 0x4E, 0x4D] && h[4..8] == [1, 0, 0, 0]
              && Rd32(h, 40) + 64 == total && CStr(h[8..40]) == CStr(name)
  {
    WordIs(h, 0, [0x53, 0x59, 0x4E, 0x4D]);
    WordIs(h, 4, [1, 0, 0, 0]);
    assert Rd32([0x53, 0x59, 0x4E, 0x4D], 0) == SYNM_MAGIC && Rd32([1, 0, 0, 0], 0) == SYNM_VERSION;
    hide Rd32;
    StrnSameMeansSameName(h[8..40], name, NAME_LEN);
  }

  // The header that install writes would pass as an update of that name.
  lemma InstalledHeaderPasses(info: Record, size: u32, crc: u32)
    ensures HeaderFault(SynmHeader(info, size, crc), SYNM_HDR + size as int, info[..32]).None?
  {
    var h := SynmHeader(info, size, crc);
    hide Le32, Rd32, Shape16;
    assert h[0..4] == Le32(SYNM_MAGIC) && h[4..8] == Le32(SYNM_VERSION) && h[40..44] == Le32(size);
    assert h[8..40] == info[..32];
    Rd32OfLe32(h, 0, SYNM_MAGIC);
    Rd32OfLe32(h, 4, SYNM_VERSION);
    Rd32OfLe32(h, 40, size);
    hide SynmHeader;
    StrnSameMeansSameName(h[8..40], info[..32], NAME_LEN);
  }

  // The name of an announcement survives, cut to 31 characters.
  lemma {:induction false} NameSurvives(name: seq<u8>)
    requires |name| < NAME_LEN && 0 !in name
    ensures CStr(NameField(name)) == name
  {
    PaddedName(name, NAME_LEN - |name|);
  }

  lemma {:induction false} PaddedName(name: seq<u8>, zeros: nat)
    requires 0 !in name && zeros > 0
    ensures CStr(name + seq(zeros, _ => 0)) == name
  {
    var field: seq<u8> := name + seq(zeros, _ => 0);
    if name != [] {
      PaddedName(name[1..], zeros);
      assert field[1..] == name[1..] + seq(zeros, _ => 0);
      assert field[0] == name[0] && name[0] in name;
    }
  }

  predicate HeaderPassed(stream: seq<u8>, total: nat, name: seq<u8>)
    requires |name| == NAME_LEN
  {
    |stream| < SYNM_HDR || HeaderFault(stream[..SYNM_HDR], total, name).None?
  }

  // ---- the session ----

  datatype Progress = Receiving(stream: seq<u8>) | Stopped(error: Errno)

  // One non-empty chunk on a sound port: the stream grows, unless it outgrows the
  // announced size or completes a header that does not match the announcement.
  function Fed(total: nat, name: seq<u8>, p: Progress, data: seq<u8>): Progress
    requires |name| == NAME_LEN
  {
    if p.Stopped? then p
    else if |p.stream| + |data| > total then Stopped(EFBIG)
    else
      var next := p.stream + data;
      if |p.stream| < SYNM_HDR <= |next| && HeaderFault(next[..SYNM_HDR], total, name).Some?
      then Stopped(HeaderFault(next[..SYNM_HDR], total, name).value)
      else Receiving(next)
  }

  function FedAll(total: nat, name: seq<u8>, p: Progress, chunks: seq<seq<u8>>): Progress
    requires |name| == NAME_LEN
    decreases |chunks|
  {
    if chunks == [] then p else FedAll(total, name, Fed(total, name, p, chunks[0]), chunks[1..])
  }

  function Joined(chunks: seq<seq<u8>>): seq<u8> {
    if chunks == [] then [] else chunks[0] + Joined(chunks[1..])
  }

  function Verdict(total: nat, name: seq<u8>, stream: seq<u8>): Progress
    requires |name| == NAME_LEN
  {
    if HeaderPassed(stream, total, name) then Receiving(stream)
    else Stopped(HeaderFault(stream[..SYNM_HDR], total, name).value)
  }

  lemma FedIsVerdict(total: nat, name: seq<u8>, stream: seq<u8>, data: seq<u8>)
    requires |name| == NAME_LEN && HeaderPassed(stream, total, name) && |stream| + |data| <= total
    ensures Fed(total, name, Receiving(stream), data) == Verdict(total, name, stream + data)
  {
    hide HeaderFault;
    if |stream| >= SYNM_HDR {
      assert (stream + data)[..SYNM_HDR] == stream[..SYNM_HDR];
    }
  }

  lemma {:induction false} StoppedStays(total: nat, name: seq<u8>, e: Errno, chunks: seq<seq<u8>>)
    requires |name| == NAME_LEN
    ensures FedAll(total, name, Stopped(e), chunks) == Stopped(e)
    decreases |chunks|
  {
    if chunks != [] {
      StoppedStays(total, name, e, chunks[1..]);
    }
  }

  // How the stream is cut into chunks does not matter: as long as it is no longer than
  // announced, what has become of the session depends on the bytes alone.
  lemma {:induction false} ChunkingDoesNotMatter(total: nat, name: seq<u8>, stream: seq<u8>, chunks: seq<seq<u8>>)
    requires |name| == NAME_LEN && HeaderPassed(stream, total, name)
    requires |stream| + |Joined(chunks)| <= total
    ensures FedAll(total, name, Receiving(stream), chunks) == Verdict(total, name, stream + Joined(chunks))
    decreases |chunks|
  {
    hide HeaderFault;
    if chunks == [] {
      assert stream + Joined(chunks) == stream;
    } else {
      var next := stream + chunks[0];
      assert stream + Joined(chunks) == next + Joined(chunks[1..]);
      FedIsVerdict(total, name, stream, chunks[0]);
      hide Fed;
      if HeaderPassed(next, total, name) {
        ChunkingDoesNotMatter(total, name, next, chunks[1..]);
      } else {
        assert (next + Joined(chunks[1..]))[..SYNM_HDR] == next[..SYNM_HDR];
        StoppedStays(total, name, HeaderFault(next[..SYNM_HDR], total, name).value, chunks[1..]);
      }
    }
  }

  // ---- the record that is staged ----

  function ClampShape(h: seq<u8>, at: nat): (r: seq<u8>)
    requires at + 8 <= |h|
    ensures |r| == 4
  {
    [Clamp(Rd16(h, at)), Clamp(Rd16(h, at + 2)), Clamp(Rd16(h, at + 4)), Clamp(Rd16(h, at + 6))]
  }

  function Clamp(v: u16): u8 {
    if v < 0x100 then v else 0xFF
  }

  // Element count: the product of the non-zero dimensions, on 32 bits.
  function Elems(h: seq<u8>, at: nat, k: nat): u32
    requires at + 2 * k <= |h|
  {
    if k == 0 then 1
    else if Rd16(h, at + 2 * (k - 1)) == 0 then Elems(h, at, k - 1)
    else Wrap32(Elems(h, at, k - 1) * Rd16(h, at + 2 * (k - 1)))
  }

  const OTA_VERSION: seq<u8> := [0x6F, 0x74, 0x61] + seq(13, _ => 0)
  const DTYPE_INT8: u32 := 0

  function StagedRecord(h: seq<u8>, name: seq<u8>, off: u32): Record
    requires |h| == SYNM_HDR && |name| == NAME_LEN
  {
    var bare := name + OTA_VERSION + Le32(Elems(h, 48, 4)) + Le32(Elems(h, 56, 4)) +
                seq(20, _ => 0) + Le32(DTYPE_INT8) + ClampShape(h, 48) + ClampShape(h, 56);
    PlacedRecord(bare, off, ModelSize(h), HeaderCrc(h))
  }

  function OrOne(d: u16): (r: nat)
    ensures r > 0
  {
    if d == 0 then 1 else d
  }

  // The element counts are the products of the dimensions, zero ones left out, and the
  // dimensions themselves are cut to a byte.
  lemma ElemsStep(h: seq<u8>, at: nat, k: nat)
    requires at + 2 * k + 2 <= |h|
    ensures Elems(h, at, k + 1) == Wrap32(Elems(h, at, k) * OrOne(Rd16(h, at + 2 * k)))
  {
    hide Rd16;
    if Rd16(h, at + 2 * k) == 0 {
      Unwrapped(Elems(h, at, k));
    }
  }

  lemma ProductsGrow(a: nat, b: nat, c: nat, d: nat)
    requires a > 0 && b > 0 && c > 0 && d > 0
    ensures a <= a * b <= a * b * c <= a * b * c * d
  {
    Grows(a, b);
    Grows(a * b, c);
    Grows(a * b * c, d);
  }

  lemma Grows(x: nat, y: nat)
    requires x > 0 && y > 0
    ensures 0 < x <= x * y
  {
    assert x * 1 <= x * y;
  }

  // The element count of a header's dimensions is their product, zero ones left out.
  lemma ElemsIsProduct(h: seq<u8>, at: nat)
    requires at + 8 <= |h|
    requires OrOne(Rd16(h, at)) * OrOne(Rd16(h, at + 2)) * OrOne(Rd16(h, at + 4)) * OrOne(Rd16(h, at + 6))
             < 0x1_0000_0000
    ensures Elems(h, at, 4) ==
            OrOne(Rd16(h, at)) * OrOne(Rd16(h, at + 2)) * OrOne(Rd16(h, at + 4)) * OrOne(Rd16(h, at + 6))
  {
    var a, b, c, d := OrOne(Rd16(h, at)), OrOne(Rd16(h, at + 2)), OrOne(Rd16(h, at + 4)), OrOne(Rd16(h, at + 6));
    assert Elems(h, at, 0) == 1;
    ElemsStep(h, at, 0);
    ElemsStep(h, at, 1);
    ElemsStep(h, at, 2);
    ElemsStep(h, at, 3);
    hide Rd16, Elems, OrOne;
    ProductsGrow(a, b, c, d);
    Unwrapped(a);
    Unwrapped(a * b);
    Unwrapped(a * b * c);
    Unwrapped(a * b * c * d);
    hide Wrap32;
    assert 1 * a == a;
  }

  lemma StagedReads(h: seq<u8>, name: seq<u8>, off: u32)
    requires |h| == SYNM_HDR && |name| == NAME_LEN
    ensures var r := StagedRecord(h, name, off); FlashSize(r) == ModelSize(h) && RecordCrc(r) == HeaderCrc(h)
  {
    hide Elems, ClampShape, Rd32;
    var bare: Record := name + OTA_VERSION + Le32(Elems(h, 48, 4)) + Le32(Elems(h, 56, 4)) +
                        seq(20, _ => 0) + Le32(DTYPE_INT8) + ClampShape(h, 48) + ClampShape(h, 56);
    hide Le32, PlacedRecord, FlashSize, RecordCrc;
    PlacedReads(bare, off, ModelSize(h), HeaderCrc(h));
  }
}
