// Writing a packaged model into an erased slot, page multiples at a time, and reading its
// payload back.
module SlotImage {
  import opened Errno
  import opened Bytes
  import opened Crc32
  import opened FlashRam
  import opened StoreImage

  const SYNM_MAGIC: u32 := 0x4D4E5953
  const SYNM_VERSION: u32 := 1

  // ---- sizes ----

  // RoundUp is the least multiple that is large enough.
  lemma RoundUpLeast(v: nat, align: nat, m: nat)
    requires align > 0 && v <= m && m % align == 0
    ensures RoundUp(v, align) <= m
  {
    var r := RoundUp(v, align);
    hide RoundUp;
    var p, q := r / align, m / align;
    assert r == p * align && m == q * align;
    MulOrder(p, q, align);
  }

  lemma MulOrder(p: nat, q: nat, k: nat)
    ensures p <= q ==> p * k <= q * k
    ensures p > q ==> p * k >= q * k + k
  {
    if p <= q {
      MulMonotone(p, q, k);
    } else {
      MulMonotone(q + 1, p, k);
    }
  }

  lemma MulMonotone(p: nat, q: nat, k: nat)
    requires p <= q
    ensures p * k <= q * k
  {
    assert q * k == p * k + (q - p) * k;
  }

  lemma ModDiff(a: nat, b: nat, m: nat)
    requires m > 0 && b <= a && a % m == 0 && b % m == 0
    ensures (a - b) % m == 0
  {
    var p, q := a / m, b / m;
    assert a - b == (p - q) * m + 0;
    DivModUnique(a - b, m, p - q, 0);
  }

  lemma ModSum(a: nat, b: nat, m: nat)
    requires m > 0 && a % m == 0 && b % m == 0
    ensures (a + b) % m == 0
  {
    var p, q := a / m, b / m;
    assert a + b == (p + q) * m + 0;
    DivModUnique(a + b, m, p + q, 0);
  }

  lemma ModTrans(a: nat, b: nat, c: nat)
    requires b > 0 && c > 0 && a % b == 0 && b % c == 0
    ensures a % c == 0
  {
    var p, q := a / b, b / c;
    assert a == p * b && b == q * c;
    assert a == (p * q) * c by {
      assert p * (q * c) == (p * q) * c;
    }
    MulMod(p * q, c);
  }

  // ---- a range that is being filled ----

  // The first w bytes of the image, the rest still erased.
  function Partly(img: seq<u8>, w: nat): (r: seq<u8>)
    requires w <= |img|
    ensures |r| == |img|
  {
    img[..w] + Erased(|img| - w)
  }

  // The image as it ends up in a range of size bytes: padded with erased bytes.
  function Padded(img: seq<u8>, size: nat): (r: seq<u8>)
    requires |img| <= size
    ensures |r| == size
  {
    img + Erased(size - |img|)
  }

  lemma WroteMore(m: seq<u8>, off: nat, img: seq<u8>, w: nat, chunk: seq<u8>)
    requires off + |img| <= |m| && w + |chunk| <= |img| && chunk == img[w..w + |chunk|]
    ensures Splice(Splice(m, off, Partly(img, w)), off + w, chunk) == Splice(m, off, Partly(img, w + |chunk|))
  {
    var v := w + |chunk|;
    PartlySplits(img, w, |chunk|);
    assert img[..v] == img[..w] + chunk;
    hide Splice, Partly, Erased;
    SpliceInside(m, off, img[..w], Erased(|chunk|), chunk, Erased(|img| - v));
  }

  lemma PartlySplits(img: seq<u8>, w: nat, n: nat)
    requires w + n <= |img|
    ensures Partly(img, w) == img[..w] + Erased(n) + Erased(|img| - (w + n))
    ensures Partly(img, w + n) == img[..w + n] + Erased(|img| - (w + n))
  {
  }

  lemma SpliceInside(m: seq<u8>, off: nat, a: seq<u8>, gone: seq<u8>, b: seq<u8>, c: seq<u8>)
    requires |gone| == |b| && off + |a| + |b| + |c| <= |m|
    ensures Splice(Splice(m, off, a + gone + c), off + |a|, b) == Splice(m, off, a + b + c)
  {
  }

  lemma PartlyBlank(m: seq<u8>, off: nat, img: seq<u8>, w: nat, len: nat)
    requires off + |img| <= |m| && w + len <= |img|
    ensures BlankAt(Splice(m, off, Partly(img, w)), off + w, len)
  {
  }

  // Program the next whole pages of an image.
  method WriteNext(port: FlashPort, ghost m: seq<u8>, off: nat, ghost img: seq<u8>, w: nat, chunk: seq<u8>)
    returns (err: Option<Errno>)
    requires port.Valid() && |m| == port.g.size && off + |img| <= |m| && w + |chunk| <= |img|
    requires chunk == img[w..w + |chunk|] && |chunk| > 0
    requires port.mem[..] == Splice(m, off, Partly(img, w))
    requires Aligned(off + w, |chunk|, port.g.page)
    modifies port, port.mem
    ensures SameOutside(m, port.mem[..], off, |img|)
    ensures err.None? ==> port.mem[..] == Splice(m, off, Partly(img, w + |chunk|))
    ensures old(port.failAfterPages) == 0 ==> err.None? && port.failAfterPages == 0
  {
    ghost var c := port.Now();
    hide Wrote, Aligned, Sound, Splice, Partly, SameOutside, BlankAt;
    assert off + w + |chunk| <= |m|;
    PartlyBlank(m, off, img, w, |chunk|);
    WroteMore(m, off, img, w, chunk);
    SpliceChangesOnly(m, off, Partly(img, w));
    err := port.Write(off + w, chunk);
    WriteFacts(port.g, c, port.Now(), off + w, chunk, err);
    StillInside(m, c.mem, port.mem[..], off, |img|, off + w, |chunk|);
  }

  lemma StillInside(a: seq<u8>, b: seq<u8>, c: seq<u8>, off: nat, size: nat, at: nat, len: nat)
    requires off <= at && at + len <= off + size <= |a| && SameOutside(a, b, off, size) && SameOutside(b, c, at, len)
    ensures SameOutside(a, c, off, size)
  {
    assert c[..off] == c[..at][..off] && b[..off] == b[..at][..off];
    var k := off + size - (at + len);
    assert c[off + size..] == c[at + len..][k..] && b[off + size..] == b[at + len..][k..];
  }

  // ---- reading back ----

  ghost function CrcUpTo(m: seq<u8>, off: nat, n: nat): bv32
    requires off + n <= |m|
  {
    Update(0, m[off..off + n])
  }

  lemma SlicesJoin(m: seq<u8>, off: nat, pos: nat, n: nat)
    requires off + pos + n <= |m|
    ensures m[off..off + pos] + m[off + pos..off + pos + n] == m[off..off + pos + n]
  {
  }

  lemma CrcStarts(m: seq<u8>, off: nat)
    requires off <= |m|
    ensures CrcUpTo(m, off, 0) == 0
  {
    UpdateNothing(0);
    assert m[off..off + 0] == [];
  }

  lemma CrcExtends(m: seq<u8>, off: nat, pos: nat, n: nat)
    requires off + pos + n <= |m|
    ensures Update(CrcUpTo(m, off, pos), m[off + pos..off + pos + n]) == CrcUpTo(m, off, pos + n)
  {
    SlicesJoin(m, off, pos, n);
    hide Update;
    UpdateAppend(0, m[off..off + pos], m[off + pos..off + pos + n]);
  }

  // CRC-32 of a stretch of flash, read in blocks.
  method FlashCrc(port: FlashPort, off: nat, size: nat, block: nat) returns (r: Result<bv32>)
    requires port.Valid() && block > 0 && off + size <= port.g.size
    ensures r == Ok(CrcUpTo(port.mem[..], off, size))
  {
    CrcStarts(port.mem[..], off);
    hide CrcUpTo, Sound;
    r := Ok(0);
    var pos: nat := 0;
    while pos < size
      invariant pos <= size
      invariant r == Ok(CrcUpTo(port.mem[..], off, pos))
    {
      r, pos := CrcBlock(port, off, pos, size, block, r.value);
      if r.Err? {
        return r;
      }
    }
  }

  method CrcBlock(port: FlashPort, off: nat, pos: nat, size: nat, block: nat, crc: bv32)
    returns (r: Result<bv32>, next: nat)
    requires port.Valid() && block > 0 && pos < size && off + size <= port.g.size
    requires crc == CrcUpTo(port.mem[..], off, pos)
    ensures pos < next <= size && r == Ok(CrcUpTo(port.mem[..], off, next))
  {
    var n := if size - pos < block then size - pos else block;
    hide *;
    r := CrcRead(port, off, pos, n, crc);
    next := pos + n;
  }

  method CrcRead(port: FlashPort, off: nat, pos: nat, n: nat, crc: bv32) returns (r: Result<bv32>)
    requires port.Valid() && n > 0 && off + pos + n <= port.g.size && crc == CrcUpTo(port.mem[..], off, pos)
    ensures r == Ok(CrcUpTo(port.mem[..], off, pos + n))
  {
    assert InRange(port.g, off + pos, n);
    CrcExtends(port.mem[..], off, pos, n);
    var read := port.Read(off + pos, n);
    hide *;
    match read {
      case Err(e) =>
        return Err(e);
      case Ok(buf) =>
        assert buf == port.mem[..][off + pos..off + pos + n];
        return Ok(Update(crc, buf));
    }
  }

  // ---- the packaged model ----

  function Shape16(bytes: seq<u8>): (r: seq<u8>)
    requires |bytes| == 4
    ensures |r| == 8
  {
    Le16(bytes[0]) + Le16(bytes[1]) + Le16(bytes[2]) + Le16(bytes[3])
  }

  // The 64-byte header the store synthesises for a model.
  function SynmHeader(info: Record, size: u32, crc: u32): (h: seq<u8>)
    ensures |h| == SYNM_HDR
  {
    Le32(SYNM_MAGIC) + Le32(SYNM_VERSION) + info[..32] + Le32(size) + Le32(crc) +
    Shape16(info[80..84]) + Shape16(info[84..88])
  }

  // The record of a payload that sits behind its header at off; the RAM window starts at
  // address 0.
  function PlacedRecord(info: Record, off: u32, size: u32, crc: u32): Record {
    info[..56] + Le32(Wrap32(off + SYNM_HDR)) + Le32(size) + info[64..68] + Le32(crc) + info[72..]
  }

  lemma PlacedReads(info: Record, off: u32, size: u32, crc: u32)
    ensures var r := PlacedRecord(info, off, size, crc);
            FlashSize(r) == size && RecordCrc(r) == crc && FlashOffset(r) == Wrap32(off + SYNM_HDR)
  {
    var r := PlacedRecord(info, off, size, crc);
    hide Le32, Wrap32, Rd32;
    assert r[56..60] == Le32(Wrap32(off + SYNM_HDR)) && r[60..64] == Le32(size) && r[68..72] == Le32(crc);
    Rd32OfLe32(r, 56, Wrap32(off + SYNM_HDR));
    Rd32OfLe32(r, 60, size);
    Rd32OfLe32(r, 68, crc);
  }

  // ---- writing it ----

  // A slot a model of total bytes can be written to.
  predicate Room(g: Geometry, off: nat, slotSize: nat, total: nat) {
    && Sound(g) && g.page <= IO_BUF && IO_BUF % g.page == 0
    && off % g.sector == 0 && slotSize % g.sector == 0 && off + slotSize <= g.size
    && SYNM_HDR < total <= slotSize
  }

  function EraseLen(g: Geometry, total: nat): (len: nat)
    requires Sound(g)
    ensures total <= len && len % g.sector == 0
  {
    RoundUp(total, g.sector)
  }

  lemma EraseFits(g: Geometry, off: nat, slotSize: nat, total: nat)
    requires Room(g, off, slotSize, total)
    ensures EraseLen(g, total) <= slotSize && EraseLen(g, total) % g.page == 0 && off % g.page == 0
    ensures Aligned(off, EraseLen(g, total), g.sector)
  {
    RoundUpLeast(total, g.sector, slotSize);
    ModTrans(EraseLen(g, total), g.sector, g.page);
    ModTrans(off, g.sector, g.page);
  }

  // Whole pages are left to write.
  predicate OnPage(g: Geometry, off: nat, w: nat, len: nat)
    requires Sound(g)
  {
    w <= len && w % g.page == 0 && len % g.page == 0 && off % g.page == 0
  }

  lemma NextPages(g: Geometry, off: nat, w: nat, len: nat, n: nat)
    requires Sound(g) && OnPage(g, off, w, len) && 0 < n && w + n <= len
    ensures w + RoundUp(n, g.page) <= len
    ensures OnPage(g, off, w + RoundUp(n, g.page), len)
    ensures Aligned(off + w, RoundUp(n, g.page), g.page)
  {
    var p := RoundUp(n, g.page);
    ModDiff(len, w, g.page);
    RoundUpLeast(n, g.page, len - w);
    hide RoundUp;
    ModSum(w, p, g.page);
    ModSum(off, w, g.page);
  }

  lemma WholeBuffer(g: Geometry)
    requires Sound(g) && IO_BUF % g.page == 0
    ensures RoundUp(IO_BUF, g.page) == IO_BUF
  {
    RoundUpLeast(IO_BUF, g.page, IO_BUF);
  }

  // The next n bytes of the payload, padded to whole pages.
  method WriteBlock(port: FlashPort, ghost m: seq<u8>, off: nat, ghost size: nat, ghost img: seq<u8>, w: nat,
                    block: seq<u8>)
    returns (err: Option<Errno>)
    requires port.Valid() && |m| == port.g.size && |img| <= size && off + size <= |m|
    requires OnPage(port.g, off, w, size) && 0 < |block| && w + |block| <= |img| && block == img[w..w + |block|]
    requires w + |block| == |img| || RoundUp(|block|, port.g.page) == |block|
    requires port.mem[..] == Splice(m, off, Partly(Padded(img, size), w))
    modifies port, port.mem
    ensures w + RoundUp(|block|, port.g.page) <= size
    ensures OnPage(port.g, off, w + RoundUp(|block|, port.g.page), size)
    ensures SameOutside(m, port.mem[..], off, size)
    ensures var next := w + RoundUp(|block|, port.g.page);
            err.None? ==> port.mem[..] == Splice(m, off, Partly(Padded(img, size), next))
    ensures old(port.failAfterPages) == 0 ==> err.None? && port.failAfterPages == 0
  {
    NextPages(port.g, off, w, size, |block|);
    var padded := RoundUp(|block|, port.g.page);
    BlockPadded(img, size, w, |block|, padded);
    hide RoundUp, Splice, Partly, Padded, OnPage, SameOutside, Aligned, Sound;
    err := WriteNext(port, m, off, Padded(img, size), w, block + Erased(padded - |block|));
  }

  lemma BlockPadded(img: seq<u8>, size: nat, w: nat, n: nat, padded: nat)
    requires |img| <= size && w + n <= |img| && n <= padded && w + padded <= size
    requires w + n == |img| || padded == n
    ensures img[w..w + n] + Erased(padded - n) == Padded(img, size)[w..w + padded]
  {
  }

  lemma AllWritten(img: seq<u8>, size: nat, w: nat)
    requires |img| <= w <= size
    ensures Partly(Padded(img, size), w) == Padded(img, size)
  {
  }

  lemma NoneWritten(img: seq<u8>)
    ensures Partly(img, 0) == Erased(|img|)
  {
  }

  // Erase the sectors the image needs, program the page-buffered header and then the
  // payload in blocks of the i/o buffer.
  method WriteModel(port: FlashPort, off: nat, slotSize: nat, header: seq<u8>, data: seq<u8>)
    returns (err: Option<Errno>)
    requires port.Valid() && |header| == SYNM_HDR && Room(port.g, off, slotSize, SYNM_HDR + |data|)
    modifies port, port.mem
    ensures EraseLen(port.g, SYNM_HDR + |data|) <= slotSize
    ensures SameOutside(old(port.mem[..]), port.mem[..], off, slotSize)
    ensures var whole := Padded(header + data, EraseLen(port.g, SYNM_HDR + |data|));
            err.None? ==> port.mem[..] == Splice(old(port.mem[..]), off, whole)
    ensures old(port.failAfterPages) == 0 ==> err.None? && port.failAfterPages == 0
  {
    ghost var c := port.Now();
    var total := SYNM_HDR + |data|;
    EraseFits(port.g, off, slotSize, total);
    var len := EraseLen(port.g, total);
    assert OnPage(port.g, off, 0, len);
    err := port.EraseSectors(off, len);
    hide WasErased, Aligned, EraseLen, Splice, Partly, Padded, OnPage, SameOutside, Sound, Erased;
    EraseFacts(port.g, c, port.Now(), off, len, err);
    Narrower(c.mem, port.mem[..], off, len, slotSize);
    if err.Some? {
      return err;
    }
    NoneWritten(Padded(header + data, len));
    err := WriteErased(port, c.mem, off, len, header, data);
    Narrower(c.mem, port.mem[..], off, len, slotSize);
  }

  lemma Narrower(a: seq<u8>, b: seq<u8>, off: nat, len: nat, size: nat)
    requires len <= size && off + size <= |a| && SameOutside(a, b, off, len)
    ensures SameOutside(a, b, off, size)
  {
    assert b[off + size..] == b[off + len..][size - len..];
    assert a[off + size..] == a[off + len..][size - len..];
  }

  method WriteErased(port: FlashPort, ghost m: seq<u8>, off: nat, len: nat, header: seq<u8>, data: seq<u8>)
    returns (err: Option<Errno>)
    requires port.Valid() && |header| == SYNM_HDR && |data| > 0 && SYNM_HDR + |data| <= len
    requires off + len <= |m| == port.g.size
    requires OnPage(port.g, off, 0, len) && port.g.page <= IO_BUF && IO_BUF % port.g.page == 0
    requires port.mem[..] == Splice(m, off, Partly(Padded(header + data, len), 0))
    modifies port, port.mem
    ensures SameOutside(m, port.mem[..], off, len)
    ensures err.None? ==> port.mem[..] == Splice(m, off, Padded(header + data, len))
    ensures old(port.failAfterPages) == 0 ==> err.None? && port.failAfterPages == 0
  {
    var page := port.g.page;
    assert page > 0;
    WholeBuffer(port.g);
    ghost var img := header + data;
    var hdrPages := RoundUp(SYNM_HDR, page);
    var lead := if hdrPages - SYNM_HDR < |data| then hdrPages - SYNM_HDR else |data|;
    HeadPages(port.g, header, data, lead, hdrPages);
    hide Splice, Partly, Padded, OnPage, SameOutside, Sound, RoundUp;
    err := WriteBlock(port, m, off, len, img, 0, header + data[..lead]);
    if err.Some? {
      return err;
    }
    err := WriteRest(port, m, off, len, header, data, lead, RoundUp(SYNM_HDR + lead, page));
  }

  // Where the write position stands when pos payload bytes have been written.
  predicate Reached(pos: nat, w: nat, size: nat) {
    if pos < size then w == SYNM_HDR + pos else w >= SYNM_HDR + size
  }

  method WriteRest(port: FlashPort, ghost m: seq<u8>, off: nat, ghost len: nat, ghost header: seq<u8>, data: seq<u8>,
                   lead: nat, start: nat)
    returns (err: Option<Errno>)
    requires port.Valid() && |header| == SYNM_HDR && SYNM_HDR + |data| <= len && off + len <= |m| == port.g.size
    requires OnPage(port.g, off, start, len) && port.g.page <= IO_BUF && IO_BUF % port.g.page == 0
    requires lead <= |data| && start <= len && Reached(lead, start, |data|)
    requires port.mem[..] == Splice(m, off, Partly(Padded(header + data, len), start))
    modifies port, port.mem
    ensures SameOutside(m, port.mem[..], off, len)
    ensures err.None? ==> port.mem[..] == Splice(m, off, Padded(header + data, len))
    ensures old(port.failAfterPages) == 0 ==> err.None? && port.failAfterPages == 0
  {
    var page := port.g.page;
    assert page > 0;
    WholeBuffer(port.g);
    ghost var img := header + data;
    SpliceChangesOnly(m, off, Partly(Padded(img, len), start));
    hide Splice, Partly, Padded, OnPage, SameOutside, Sound, RoundUp;
    err := None;
    var w: nat, pos: nat := start, lead;
    while err.None? && pos < |data|
      invariant pos <= |data| && w <= len && OnPage(port.g, off, w, len) && Reached(pos, w, |data|)
      invariant SameOutside(m, port.mem[..], off, len)
      invariant err.None? ==> port.mem[..] == Splice(m, off, Partly(Padded(img, len), w))
      invariant old(port.failAfterPages) == 0 ==> err.None? && port.failAfterPages == 0
      decreases |data| - pos
    {
      err, w, pos := WriteStep(port, m, off, len, header, data, w, pos);
    }
    if err.None? {
      AllWritten(img, len, w);
    }
  }

  method WriteStep(port: FlashPort, ghost m: seq<u8>, off: nat, ghost len: nat, ghost header: seq<u8>, data: seq<u8>,
                   at: nat, from: nat)
    returns (err: Option<Errno>, w: nat, pos: nat)
    requires port.Valid() && |header| == SYNM_HDR && SYNM_HDR + |data| <= len && off + len <= |m| == port.g.size
    requires OnPage(port.g, off, at, len) && port.g.page <= IO_BUF && IO_BUF % port.g.page == 0
    requires from < |data| && at <= len && Reached(from, at, |data|)
    requires port.mem[..] == Splice(m, off, Partly(Padded(header + data, len), at))
    modifies port, port.mem
    ensures from < pos <= |data| && w <= len && OnPage(port.g, off, w, len) && Reached(pos, w, |data|)
    ensures SameOutside(m, port.mem[..], off, len)
    ensures err.None? ==> port.mem[..] == Splice(m, off, Partly(Padded(header + data, len), w))
    ensures old(port.failAfterPages) == 0 ==> err.None? && port.failAfterPages == 0
  {
    var page := port.g.page;
    assert page > 0;
    WholeBuffer(port.g);
    var n := if |data| - from < IO_BUF then |data| - from else IO_BUF;
    PayloadBlock(header, data, from, n);
    hide Splice, Partly, Padded, OnPage, SameOutside, Sound, RoundUp;
    err := WriteBlock(port, m, off, len, header + data, at, data[from..from + n]);
    w := at + RoundUp(n, page);
    pos := from + n;
  }

  lemma PayloadBlock(header: seq<u8>, data: seq<u8>, pos: nat, n: nat)
    requires |header| == SYNM_HDR && pos + n <= |data|
    ensures data[pos..pos + n] == (header + data)[SYNM_HDR + pos..SYNM_HDR + pos + n]
  {
  }

  lemma HeadPages(g: Geometry, header: seq<u8>, data: seq<u8>, lead: nat, hdrPages: nat)
    requires Sound(g) && |header| == SYNM_HDR && hdrPages == RoundUp(SYNM_HDR, g.page)
    requires lead == if hdrPages - SYNM_HDR < |data| then hdrPages - SYNM_HDR else |data|
    ensures RoundUp(SYNM_HDR + lead, g.page) == hdrPages
    ensures header + data[..lead] == (header + data)[..SYNM_HDR + lead]
  {
    RoundUpLeast(SYNM_HDR + lead, g.page, hdrPages);
    RoundUpLeast(SYNM_HDR, g.page, RoundUp(SYNM_HDR + lead, g.page));
  }
}
