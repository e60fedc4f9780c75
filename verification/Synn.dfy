// The SYNN container: the packer on the host and the parser on the device.
module Synn {
  import opened Errno
  import opened Bytes

  const MAGIC: u32 := 0x4E4E5953
  const VERSION: u32 := 1
  const HDR_SIZE := 48
  const ALIGN := 16
  const U32_LIMIT := 0x1_0000_0000

  // ---- the parser ----

  datatype Desc = Desc(
    microcode: seq<u8>, weights: seq<u8>, kernels: seq<u8>,
    inputSize: nat, outputSize: nat, scratchSize: nat)

  function Word(data: seq<u8>, k: nat): u32
    requires |data| >= HDR_SIZE && k < 12
  {
    Rd32(data, 4 * k)
  }

  predicate InBounds(data: seq<u8>, off: u32, size: u32) {
    off as int + size as int <= |data|
  }

  function Section(data: seq<u8>, off: u32, size: u32): seq<u8>
    requires InBounds(data, off, size)
  {
    data[off..off + size]
  }

  // Section pointers become the bytes they point at; None is the NULL pointer.
  function Parse(data: Option<seq<u8>>): Result<Desc> {
    if data.None? then Err(EINVAL)
    else
      var d := data.value;
      if |d| < HDR_SIZE then Err(ENOTSUP)
      else if Word(d, 0) != MAGIC then Err(ENOTSUP)
      else if Word(d, 1) != VERSION then Err(EINVAL)
      else if Word(d, 11) != 0 then Err(EINVAL)
      else if !InBounds(d, Word(d, 2), Word(d, 3)) || !InBounds(d, Word(d, 4), Word(d, 5)) ||
              !InBounds(d, Word(d, 6), Word(d, 7)) then Err(EINVAL)
      else if Word(d, 2) % ALIGN != 0 || Word(d, 4) % ALIGN != 0 || Word(d, 6) % ALIGN != 0 then Err(EINVAL)
      else if Word(d, 8) == 0 || Word(d, 9) == 0 then Err(EINVAL)
      else Ok(Desc(Section(d, Word(d, 2), Word(d, 3)), Section(d, Word(d, 4), Word(d, 5)),
                   Section(d, Word(d, 6), Word(d, 7)), Word(d, 8), Word(d, 9), Word(d, 10)))
  }

  // A blob is accepted exactly when it says SYNN, version 1 and no flags, its sections
  // are aligned and inside it, and both i/o sizes are positive; and what is handed out
  // are the bytes of the sections.
  lemma AcceptedIff(d: seq<u8>)
    ensures var r := Parse(Some(d));
            && (r.Ok? <==>
                  && |d| >= 48 && d[0..4] == [0x53, 0x59, 0x4E, 0x4E] && d[4..8] == [1, 0, 0, 0]
                  && SectionOk(d, 8) && SectionOk(d, 16) && SectionOk(d, 24)
                  && Rd32(d, 32) > 0 && Rd32(d, 36) > 0 && d[44..48] == [0, 0, 0, 0])
            && (r.Ok? ==>
                  && r.value.microcode == SectionAt(d, 8) && r.value.weights == SectionAt(d, 16)
                  && r.value.kernels == SectionAt(d, 24)
                  && r.value.inputSize == Rd32(d, 32) && r.value.outputSize == Rd32(d, 36)
                  && r.value.scratchSize == Rd32(d, 40))
  {
    if |d| >= 48 {
      WordIs(d, 0, [0x53, 0x59, 0x4E, 0x4E]);
      WordIs(d, 4, [1, 0, 0, 0]);
      WordIs(d, 44, [0, 0, 0, 0]);
      hide Rd32;
    }
  }

  // The pair of offset and size at this place of the header names an aligned part of d.
  predicate SectionOk(d: seq<u8>, at: nat)
    requires at + 8 <= |d|
  {
    Rd32(d, at) % 16 == 0 && Rd32(d, at) as int + Rd32(d, at + 4) as int <= |d|
  }

  function SectionAt(d: seq<u8>, at: nat): seq<u8>
    requires at + 8 <= |d| && SectionOk(d, at)
  {
    d[Rd32(d, at)..Rd32(d, at) as int + Rd32(d, at + 4) as int]
  }

  // ---- the packer ----

  function Align16(n: nat): (r: nat)
    ensures n <= r < n + ALIGN && r % ALIGN == 0
  {
    (n + 15) / 16 * 16
  }

  lemma AlignShift(base: nat, n: nat)
    requires base % ALIGN == 0
    ensures Align16(base + n) == base + Align16(n)
  {
    assert base == base / 16 * 16;
  }

  function Words(ws: seq<u32>): (r: seq<u8>)
    ensures |r| == 4 * |ws|
  {
    if ws == [] then [] else Words(ws[..|ws| - 1]) + Le32(ws[|ws| - 1])
  }

  function Padded(data: seq<u8>): (r: seq<u8>)
    ensures |r| == Align16(|data|)
  {
    data + seq(Align16(|data|) - |data|, _ => 0)
  }

  // Where the sections go: each at the end of the one before, rounded up to 16.
  function Offset(sections: seq<seq<u8>>, k: nat): (r: nat)
    requires k <= |sections|
    ensures r % ALIGN == 0 && r >= HDR_SIZE
  {
    if k == 0 then HDR_SIZE else Align16(Offset(sections, k - 1) + |sections[k - 1]|)
  }

  function HeaderWords(sections: seq<seq<u8>>, inputSize: nat, outputSize: nat, scratchSize: nat): seq<nat>
    requires |sections| == 3
  {
    [MAGIC, VERSION,
     Offset(sections, 0), |sections[0]|, Offset(sections, 1), |sections[1]|, Offset(sections, 2), |sections[2]|,
     inputSize, outputSize, scratchSize, 0]
  }

  predicate AllU32(ws: seq<nat>) {
    forall k :: 0 <= k < |ws| ==> ws[k] < U32_LIMIT
  }

  function Packed(sections: seq<seq<u8>>, k: nat): (r: seq<u8>)
    requires k <= |sections|
    ensures |r| == Offset(sections, k) - HDR_SIZE
  {
    if k == 0 then []
    else
      AlignShift(Offset(sections, k - 1), |sections[k - 1]|);
      Packed(sections, k - 1) + Padded(sections[k - 1])
  }

  function AsU32s(ws: seq<nat>): (r: seq<u32>)
    requires AllU32(ws)
    ensures |r| == |ws|
  {
    seq(|ws|, k requires 0 <= k < |ws| => ws[k])
  }

  // The blob build_synn returns, or None where struct.pack raises because a value does
  // not fit 32 bits.
  function Blob(sections: seq<seq<u8>>, inputSize: nat, outputSize: nat, scratchSize: nat): Option<seq<u8>>
    requires |sections| == 3
  {
    var ws := HeaderWords(sections, inputSize, outputSize, scratchSize);
    if AllU32(ws) then Some(Words(AsU32s(ws)) + Packed(sections, 3)) else None
  }

  lemma {:induction false} WordsAt(ws: seq<u32>, k: nat)
    requires k < |ws|
    ensures Words(ws)[4 * k..4 * k + 4] == Le32(ws[k])
  {
    var n := |ws| - 1;
    if k < n {
      WordsAt(ws[..n], k);
      assert ws[..n][k] == ws[k];
      assert Words(ws)[4 * k..4 * k + 4] == Words(ws[..n])[4 * k..4 * k + 4];
    }
  }

  lemma WordReads(ws: seq<u32>, rest: seq<u8>, k: nat)
    requires |ws| == 12 && k < 12
    ensures Word(Words(ws) + rest, k) == ws[k]
  {
    var d := Words(ws) + rest;
    WordsAt(ws, k);
    assert d[4 * k..4 * k + 4] == Words(ws)[4 * k..4 * k + 4];
    Rd32OfLe32(d, 4 * k, ws[k]);
  }

  lemma HeadSlice(a: seq<u8>, b: seq<u8>, lo: nat, len: nat)
    requires lo + len <= |a|
    ensures (a + b)[lo..lo + len] == a[lo..lo + len]
  {
  }

  lemma {:induction false} SectionEnds(sections: seq<seq<u8>>, k: nat, n: nat)
    requires k < n <= |sections|
    ensures Offset(sections, k) + |sections[k]| <= Offset(sections, n)
  {
    if k < n - 1 {
      SectionEnds(sections, k, n - 1);
    }
  }

  lemma {:induction false} SectionIsPacked(sections: seq<seq<u8>>, k: nat, n: nat)
    requires k < n <= |sections|
    ensures Offset(sections, k) + |sections[k]| <= Offset(sections, n)
    ensures var lo := Offset(sections, k) - HDR_SIZE;
            Packed(sections, n)[lo..lo + |sections[k]|] == sections[k]
  {
    SectionEnds(sections, k, n);
    SectionSits(sections, k, n);
  }

  predicate Sits(whole: seq<u8>, at: nat, data: seq<u8>) {
    at + |data| <= |whole| && whole[at..at + |data|] == data
  }

  lemma {:induction false} SectionSits(sections: seq<seq<u8>>, k: nat, n: nat)
    requires k < n <= |sections|
    ensures Sits(Packed(sections, n), Offset(sections, k) - HDR_SIZE, sections[k])
  {
    hide *;
    PackedNext(sections, n - 1);
    if k < n - 1 {
      SectionSits(sections, k, n - 1);
      SitsStill(Packed(sections, n - 1), Padded(sections[n - 1]), Offset(sections, k) - HDR_SIZE, sections[k]);
    } else {
      LastSits(Packed(sections, k), sections[k]);
    }
  }

  lemma SitsStill(before: seq<u8>, last: seq<u8>, at: nat, data: seq<u8>)
    requires Sits(before, at, data)
    ensures Sits(before + last, at, data)
  {
    HeadSlice(before, last, at, |data|);
  }

  lemma LastSits(before: seq<u8>, data: seq<u8>)
    ensures Sits(before + Padded(data), |before|, data)
  {
    PaddedHolds(data);
    Behind(before, Padded(data), 0, |data|);
  }

  lemma PaddedHolds(data: seq<u8>)
    ensures |data| <= |Padded(data)| && Padded(data)[0..|data|] == data
  {
  }

  // Sections are aligned, in bounds, in order and disjoint from each other and the header.
  lemma SectionsDisjoint(sections: seq<seq<u8>>, j: nat, k: nat)
    requires j < k < |sections|
    ensures HDR_SIZE <= Offset(sections, j) && Offset(sections, j) + |sections[j]| <= Offset(sections, k)
    ensures Offset(sections, j) % ALIGN == 0 && Offset(sections, k) % ALIGN == 0
  {
    SectionIsPacked(sections, j, k);
  }

  lemma SectionReads(sections: seq<seq<u8>>, header: seq<u8>, k: nat)
    requires |sections| == 3 && k < 3 && |header| == HDR_SIZE
    requires Offset(sections, k) < U32_LIMIT && |sections[k]| < U32_LIMIT
    ensures var d := header + Packed(sections, 3);
            && InBounds(d, Offset(sections, k), |sections[k]|)
            && Section(d, Offset(sections, k), |sections[k]|) == sections[k]
  {
    hide Packed, Offset;
    SectionIsPacked(sections, k, 3);
    Behind(header, Packed(sections, 3), Offset(sections, k) - HDR_SIZE, |sections[k]|);
  }

  lemma Behind(header: seq<u8>, rest: seq<u8>, at: nat, len: nat)
    requires at + len <= |rest|
    ensures (header + rest)[|header| + at..|header| + at + len] == rest[at..at + len]
  {
  }

  // What the packer writes the parser reads back: exactly the three sections and the
  // sizes, unless an i/o size is zero, which the parser refuses.
  lemma RoundTrip(sections: seq<seq<u8>>, inputSize: nat, outputSize: nat, scratchSize: nat)
    requires |sections| == 3
    ensures match Blob(sections, inputSize, outputSize, scratchSize)
            case None => !AllU32(HeaderWords(sections, inputSize, outputSize, scratchSize))
            case Some(b) =>
              Parse(Some(b)) ==
              if inputSize == 0 || outputSize == 0 then Err(EINVAL)
              else Ok(Desc(sections[0], sections[1], sections[2], inputSize, outputSize, scratchSize))
  {
    hide Words, Packed, Word, Section, InBounds, Offset;
    var ws := HeaderWords(sections, inputSize, outputSize, scratchSize);
    if AllU32(ws) {
      var us := AsU32s(ws);
      var header := Words(us);
      var d := header + Packed(sections, 3);
      forall k | 0 <= k < 12 ensures Word(d, k) == ws[k] {
        WordReads(us, Packed(sections, 3), k);
      }
      assert ws[2] == Offset(sections, 0) && ws[4] == Offset(sections, 1) && ws[6] == Offset(sections, 2);
      assert ws[3] == |sections[0]| && ws[5] == |sections[1]| && ws[7] == |sections[2]|;
      SectionReads(sections, header, 0);
      SectionReads(sections, header, 1);
      SectionReads(sections, header, 2);
    }
  }

  // The packer as written: one pass computes the offsets, a second fills the zeroed blob.
  method BuildSynn(microcode: seq<u8>, weights: seq<u8>, kernels: seq<u8>,
                   inputSize: nat, outputSize: nat, scratchSize: nat) returns (r: Option<seq<u8>>)
    ensures r == Blob([microcode, weights, kernels], inputSize, outputSize, scratchSize)
  {
    var sections := [microcode, weights, kernels];
    var offs: seq<nat> := [];
    var pos := Align16(HDR_SIZE);
    for k := 0 to 3
      invariant |offs| == k && pos == Offset(sections, k)
      invariant forall i :: 0 <= i < k ==> offs[i] == Offset(sections, i)
    {
      offs := offs + [pos];
      pos := Align16(pos + |sections[k]|);
    }
    hide Words, Packed, Offset;
    var ws := [MAGIC, VERSION, offs[0], |sections[0]|, offs[1], |sections[1]|, offs[2], |sections[2]|,
               inputSize, outputSize, scratchSize, 0];
    assert ws == HeaderWords(sections, inputSize, outputSize, scratchSize);
    if !AllU32(ws) {
      return None;
    }
    var header := Words(AsU32s(ws));
    var blob := header + seq(pos - HDR_SIZE, _ => 0);
    blob := Fill(sections, offs, header, blob);
    return Some(blob);
  }

  // What is in the blob before section k is copied in: the header, the earlier sections
  // padded, and zeroes.
  predicate Filled(sections: seq<seq<u8>>, header: seq<u8>, blob: seq<u8>, k: nat)
    requires k <= |sections| == 3
  {
    && HDR_SIZE == |header|
    && |blob| == Offset(sections, 3)
    && Offset(sections, k) <= |blob|
    && blob[..Offset(sections, k)] == header + Packed(sections, k)
    && forall i :: Offset(sections, k) <= i < |blob| ==> blob[i] == 0
  }

  method Fill(sections: seq<seq<u8>>, offs: seq<nat>, header: seq<u8>, zeroed: seq<u8>) returns (blob: seq<u8>)
    requires |sections| == |offs| == 3
    requires forall i :: 0 <= i < 3 ==> offs[i] == Offset(sections, i)
    requires |header| == HDR_SIZE && |zeroed| == Offset(sections, 3)
    requires zeroed == header + seq(|zeroed| - HDR_SIZE, _ => 0)
    ensures blob == header + Packed(sections, 3)
  {
    blob := zeroed;
    assert zeroed[..HDR_SIZE] == header + Packed(sections, 0);
    hide Packed, Offset, Filled;
    assert Filled(sections, header, blob, 0) by {
      StartsFilled(sections, header, blob);
    }
    for k := 0 to 3
      invariant Filled(sections, header, blob, k)
    {
      FitsWithin(sections, header, blob, k);
      ghost var before := blob;
      var lo, hi := offs[k], offs[k] + |sections[k]|;
      blob := blob[..lo] + sections[k] + blob[hi..];
      FillsOneMore(sections, header, before, blob, k);
    }
    AllFilled(sections, header, blob);
  }

  lemma StartsFilled(sections: seq<seq<u8>>, header: seq<u8>, blob: seq<u8>)
    requires |sections| == 3 && |header| == HDR_SIZE && |blob| == Offset(sections, 3)
    requires blob == header + seq(|blob| - HDR_SIZE, _ => 0)
    ensures Filled(sections, header, blob, 0)
  {
    assert blob[..HDR_SIZE] == header + Packed(sections, 0);
    hide Packed;
    assert Offset(sections, 0) == HDR_SIZE;
    hide Offset;
  }

  lemma AllFilled(sections: seq<seq<u8>>, header: seq<u8>, blob: seq<u8>)
    requires |sections| == 3 && Filled(sections, header, blob, 3)
    ensures blob == header + Packed(sections, 3)
  {
    hide Packed, Offset;
    assert blob[..|blob|] == blob;
  }

  lemma FitsWithin(sections: seq<seq<u8>>, header: seq<u8>, blob: seq<u8>, k: nat)
    requires |sections| == 3 && k < 3 && Filled(sections, header, blob, k)
    ensures Offset(sections, k) + |sections[k]| <= |blob|
  {
    SectionIsPacked(sections, k, 3);
  }

  lemma FillsOneMore(sections: seq<seq<u8>>, header: seq<u8>, before: seq<u8>, after: seq<u8>, k: nat)
    requires |sections| == 3 && k < 3 && Filled(sections, header, before, k)
    requires Offset(sections, k) + |sections[k]| <= |before|
    requires var lo := Offset(sections, k);
             after == before[..lo] + sections[k] + before[lo + |sections[k]|..]
    ensures Filled(sections, header, after, k + 1)
  {
    hide Packed, Offset, Padded, Align16;
    OffsetsRise(sections, k + 1);
    PackedNext(sections, k);
    PaddedTail(before, after, sections[k], Offset(sections, k), Offset(sections, k + 1));
    assert header + (Packed(sections, k) + Padded(sections[k])) == (header + Packed(sections, k)) + Padded(sections[k]);
  }

  lemma PackedNext(sections: seq<seq<u8>>, k: nat)
    requires k < |sections|
    ensures Offset(sections, k + 1) == Align16(Offset(sections, k) + |sections[k]|)
    ensures Packed(sections, k + 1) == Packed(sections, k) + Padded(sections[k])
  {
    hide Align16, Padded;
  }

  lemma OffsetsRise(sections: seq<seq<u8>>, k: nat)
    requires |sections| == 3 && k <= 3
    ensures Offset(sections, k) <= Offset(sections, 3)
  {
    if k < 3 {
      SectionIsPacked(sections, k, 3);
    }
  }

  // Writing a section into zeroes leaves it padded with zeroes.
  lemma PaddedTail(before: seq<u8>, after: seq<u8>, data: seq<u8>, lo: nat, next: nat)
    requires lo % ALIGN == 0 && next == Align16(lo + |data|) <= |before|
    requires after == before[..lo] + data + before[lo + |data|..]
    requires forall i :: lo <= i < |before| ==> before[i] == 0
    ensures after[..next] == before[..lo] + Padded(data)
    ensures |after| == |before| && forall i :: next <= i < |after| ==> after[i] == 0
  {
    AlignShift(lo, |data|);
    hide Align16;
  }
}
