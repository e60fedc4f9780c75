// The NOR flash port: range and alignment guards, and the RAM backend with its fault
// injection.
module FlashRam {
  import opened Errno
  import opened Bytes

  const BLANK: u8 := 0xFF

  datatype Geometry = Geometry(size: u32, sector: u32, page: u32)

  // What port initialisation checks.
  predicate Sound(g: Geometry) {
    && g.size > 0 && g.sector > 0 && g.page > 0
    && g.size % g.sector == 0 && g.sector % g.page == 0
  }

  predicate InRange(g: Geometry, off: nat, len: nat) {
    len != 0 && off <= g.size && len <= g.size - off
  }

  predicate Aligned(off: nat, len: nat, unit: nat)
    requires unit > 0
  {
    off % unit == 0 && len % unit == 0
  }

  predicate Whole(len: nat, unit: nat)
    requires unit > 0
  {
    len % unit == 0
  }

  // ---- memory as a value ----

  function Splice(m: seq<u8>, off: nat, data: seq<u8>): (r: seq<u8>)
    requires off + |data| <= |m|
    ensures |r| == |m|
  {
    m[..off] + data + m[off + |data|..]
  }

  function Erased(n: nat): (r: seq<u8>)
    ensures |r| == n
  {
    seq(n, _ => BLANK)
  }

  predicate BlankAt(m: seq<u8>, off: nat, len: nat)
    requires off + len <= |m|
  {
    forall i :: off <= i < off + len ==> m[i] == BLANK
  }

  // m and n agree everywhere but in [off, off + len).
  ghost predicate SameOutside(m: seq<u8>, n: seq<u8>, off: nat, len: nat)
    requires off + len <= |m|
  {
    |n| == |m| && n[..off] == m[..off] && n[off + len..] == m[off + len..]
  }

  lemma SpliceChangesOnly(m: seq<u8>, off: nat, data: seq<u8>)
    requires off + |data| <= |m|
    ensures SameOutside(m, Splice(m, off, data), off, |data|)
    ensures Splice(m, off, data)[off..off + |data|] == data
  {
  }

  lemma SameOutsideCompose(m: seq<u8>, n: seq<u8>, o: seq<u8>, off: nat, len: nat)
    requires off + len <= |m| && SameOutside(m, n, off, len) && SameOutside(n, o, off, len)
    ensures SameOutside(m, o, off, len)
  {
  }

  // A change inside one region is invisible in a region disjoint from it.
  lemma DisjointUntouched(m: seq<u8>, n: seq<u8>, off: nat, len: nat, lo: nat, size: nat)
    requires off + len <= |m| && SameOutside(m, n, off, len)
    requires lo + size <= |m| && (lo + size <= off || off + len <= lo)
    ensures n[lo..lo + size] == m[lo..lo + size]
  {
    forall i | lo <= i < lo + size ensures n[i] == m[i] {
      if i < off {
        assert n[..off][i] == m[..off][i];
      } else {
        assert n[off + len..][i - off - len] == m[off + len..][i - off - len];
      }
    }
  }

  lemma SpliceTwice(m: seq<u8>, off: nat, a: seq<u8>, b: seq<u8>)
    requires off + |a| + |b| <= |m|
    ensures Splice(Splice(m, off, a), off + |a|, b) == Splice(m, off, a + b)
  {
  }

  // ---- programming, page by page ----

  datatype Chip = Chip(mem: seq<u8>, failAfter: nat)

  datatype Programmed = Programmed(chip: Chip, err: Option<Errno>)

  function Less(failAfter: nat): nat {
    if failAfter == 0 then 0 else failAfter - 1
  }

  // What the backend's page loop leaves when whole pages of data go to off.
  function Program(c: Chip, off: nat, data: seq<u8>, page: nat): (r: Programmed)
    requires page > 0 && off + |data| <= |c.mem|
    ensures |r.chip.mem| == |c.mem|
    decreases |data|
  {
    if |data| < page then Programmed(c, None)
    else if c.failAfter == 1 then Programmed(Chip(Splice(c.mem, off, data[..page / 2]), 0), Some(EIO))
    else if !BlankAt(c.mem, off, page) then Programmed(Chip(c.mem, Less(c.failAfter)), Some(EACCES))
    else Program(Chip(Splice(c.mem, off, data[..page]), Less(c.failAfter)), off + page, data[page..], page)
  }

  function Pages(len: nat, page: nat): nat
    requires page > 0
    decreases len
  {
    if len < page then 0 else 1 + Pages(len - page, page)
  }

  lemma ModLess(len: nat, page: nat)
    requires page > 0 && page <= len && len % page == 0
    ensures (len - page) % page == 0
  {
    var q := len / page;
    assert len - page == (q - 1) * page + 0;
    DivModUnique(len - page, page, q - 1, 0);
  }

  // Whole pages program completely exactly when the range is blank and the injected
  // fault, if armed, lies beyond them; what then lands is the data and nothing else.
  lemma {:induction false} ProgramsWhenBlank(c: Chip, off: nat, data: seq<u8>, page: nat)
    requires page > 0 && off + |data| <= |c.mem| && |data| % page == 0
    ensures var r := Program(c, off, data, page);
            && (r.err.None? <==> BlankAt(c.mem, off, |data|) && (c.failAfter == 0 || Pages(|data|, page) < c.failAfter))
            && (r.err.None? ==> r.chip.mem == Splice(c.mem, off, data))
    decreases |data|
  {
    hide Program, BlankAt, Splice;
    ProgramUnfolds(c, off, data, page);
    if |data| < page {
      NothingToWrite(c.mem, off, data, page);
    } else if c.failAfter != 1 && BlankAt(c.mem, off, page) {
      var head, tail := data[..page], data[page..];
      var next := Chip(Splice(c.mem, off, head), Less(c.failAfter));
      ModLess(|data|, page);
      ProgramsWhenBlank(next, off + page, tail, page);
      BlankSplits(c.mem, off, head, |data|);
      SpliceTwice(c.mem, off, head, tail);
      assert head + tail == data;
    } else {
      BlankShorter(c.mem, off, page, |data|);
    }
  }

  lemma NothingToWrite(m: seq<u8>, off: nat, data: seq<u8>, page: nat)
    requires off + |data| <= |m| && |data| < page && |data| % page == 0
    ensures |data| == 0 && Splice(m, off, data) == m && BlankAt(m, off, |data|)
  {
  }

  lemma BlankShorter(m: seq<u8>, off: nat, short: nat, len: nat)
    requires short <= len && off + len <= |m|
    ensures BlankAt(m, off, len) ==> BlankAt(m, off, short)
  {
  }

  lemma BlankSplits(m: seq<u8>, off: nat, head: seq<u8>, len: nat)
    requires |head| <= len && off + len <= |m| && BlankAt(m, off, |head|)
    ensures BlankAt(Splice(m, off, head), off + |head|, len - |head|) == BlankAt(m, off, len)
  {
    var n := Splice(m, off, head);
    assert forall i :: off + |head| <= i < off + len ==> n[i] == m[i];
  }

  // A write that fails has still put a prefix of the data in place, and nothing else.
  lemma {:induction false} FailedWriteIsPrefix(c: Chip, off: nat, data: seq<u8>, page: nat) returns (landed: nat)
    requires page > 0 && off + |data| <= |c.mem|
    ensures landed <= |data|
    ensures Program(c, off, data, page).chip.mem == Splice(c.mem, off, data[..landed])
    decreases |data|
  {
    landed := 0;
    assert Splice(c.mem, off, data[..0]) == c.mem;
    if |data| >= page {
      if c.failAfter == 1 {
        landed := page / 2;
      } else if BlankAt(c.mem, off, page) {
        var head, tail := data[..page], data[page..];
        var more := FailedWriteIsPrefix(Chip(Splice(c.mem, off, head), Less(c.failAfter)), off + page, tail, page);
        landed := page + more;
        hide Program;
        SpliceTwice(c.mem, off, head, tail[..more]);
        assert head + tail[..more] == data[..landed];
      }
    }
  }

  // The injected fault hits the last page, and what belongs in the half that is lost is
  // blank: the write fails although all of the data is in place.
  lemma {:induction false} FaultLandsWhole(c: Chip, off: nat, data: seq<u8>, page: nat)
    requires page > 0 && off + |data| <= |c.mem| && |data| >= page && Whole(|data|, page) && BlankAt(c.mem, off, |data|)
    requires c.failAfter == Pages(|data|, page)
    requires BlankAt(data, |data| - (page - page / 2), page - page / 2)
    ensures Program(c, off, data, page) == Programmed(Chip(Splice(c.mem, off, data), 0), Some(EIO))
    decreases |data|
  {
    hide Program, Splice, BlankAt, Whole;
    ProgramUnfolds(c, off, data, page);
    SectorLeft(|data|, page);
    if |data| == page {
      assert Pages(0, page) == 0;
      HalfIsWhole(c.mem, off, data, page / 2);
    } else {
      var head, tail := data[..page], data[page..];
      SectorLeft(|tail|, page);
      assert Pages(|data|, page) == 1 + Pages(|tail|, page) && Pages(|tail|, page) >= 1;
      var next := Chip(Splice(c.mem, off, head), Less(c.failAfter));
      assert head + tail == data;
      hide Pages;
      BlankShorter(c.mem, off, page, |data|);
      BlankSplits(c.mem, off, head, |data|);
      BlankEnd(data, page, page - page / 2);
      FaultLandsWhole(next, off + page, tail, page);
      SpliceTwice(c.mem, off, head, tail);
    }
  }

  lemma BlankEnd(data: seq<u8>, page: nat, lost: nat)
    requires page + lost <= |data| && BlankAt(data, |data| - lost, lost)
    ensures BlankAt(data[page..], |data| - page - lost, lost)
  {
  }

  lemma HalfIsWhole(m: seq<u8>, off: nat, data: seq<u8>, half: nat)
    requires off + |data| <= |m| && half <= |data| && BlankAt(m, off, |data|) && BlankAt(data, half, |data| - half)
    ensures Splice(m, off, data[..half]) == Splice(m, off, data)
  {
  }

  // ---- the port ----

  // Contracts of the guarded calls, as relations between the chip before and after.

  ghost predicate Wrote(g: Geometry, c: Chip, d: Chip, off: nat, data: seq<u8>, err: Option<Errno>)
    requires Sound(g) && |c.mem| == g.size
  {
    if !InRange(g, off, |data|) || !Aligned(off, |data|, g.page) then d == c && err == Some(EINVAL)
    else Programmed(d, err) == Program(c, off, data, g.page)
  }

  ghost predicate WasErased(g: Geometry, c: Chip, d: Chip, off: nat, len: nat, err: Option<Errno>)
    requires Sound(g) && |c.mem| == g.size
  {
    if !InRange(g, off, len) || !Aligned(off, len, g.sector) then d == c && err == Some(EINVAL)
    else d == Chip(Splice(c.mem, off, Erased(len)), c.failAfter) && err == None
  }

  lemma EraseFacts(g: Geometry, c: Chip, d: Chip, off: nat, len: nat, err: Option<Errno>)
    requires Sound(g) && |c.mem| == g.size && off + len <= g.size && WasErased(g, c, d, off, len, err)
    ensures |d.mem| == |c.mem| && SameOutside(c.mem, d.mem, off, len) && d.failAfter == c.failAfter
    ensures err.None? ==> d.mem == Splice(c.mem, off, Erased(len))
    ensures len > 0 && Aligned(off, len, g.sector) ==> err.None?
  {
    if err.None? {
      SpliceChangesOnly(c.mem, off, Erased(len));
    }
  }

  lemma WriteFacts(g: Geometry, c: Chip, d: Chip, off: nat, data: seq<u8>, err: Option<Errno>)
    requires Sound(g) && |c.mem| == g.size && off + |data| <= g.size && Wrote(g, c, d, off, data, err)
    ensures |d.mem| == |c.mem| && SameOutside(c.mem, d.mem, off, |data|)
    ensures err.None? ==> d.mem == Splice(c.mem, off, data)
    ensures c.failAfter == 0 ==> d.failAfter == 0
    ensures c.failAfter == 0 && BlankAt(c.mem, off, |data|) && |data| > 0 && Aligned(off, |data|, g.page) ==> err.None?
  {
    Untouched(c.mem, off, |data|);
    if InRange(g, off, |data|) && Aligned(off, |data|, g.page) {
      assert g.page > 0 && |data| % g.page == 0 && off + |data| <= |c.mem|;
      hide Program, BlankAt, Splice, SameOutside, Aligned, Sound, Pages;
      var landed := FailedWriteIsPrefix(c, off, data, g.page);
      PrefixInside(c.mem, off, data, landed);
      ProgramsWhenBlank(c, off, data, g.page);
      if c.failAfter == 0 {
        FaultStaysOff(c, off, data, g.page);
      }
    }
  }

  lemma Untouched(m: seq<u8>, off: nat, len: nat)
    requires off + len <= |m|
    ensures SameOutside(m, m, off, len)
  {
  }

  lemma PrefixInside(m: seq<u8>, off: nat, data: seq<u8>, landed: nat)
    requires off + |data| <= |m| && landed <= |data|
    ensures SameOutside(m, Splice(m, off, data[..landed]), off, |data|)
  {
  }

  lemma {:induction false} FaultStaysOff(c: Chip, off: nat, data: seq<u8>, page: nat)
    requires page > 0 && off + |data| <= |c.mem| && c.failAfter == 0
    ensures Program(c, off, data, page).chip.failAfter == 0
    decreases |data|
  {
    hide Splice, BlankAt;
    if |data| >= page && BlankAt(c.mem, off, page) {
      FaultStaysOff(Chip(Splice(c.mem, off, data[..page]), 0), off + page, data[page..], page);
    }
  }

  class FlashPort {
    const g: Geometry
    const mem: array<u8>
    var failAfterPages: nat

    ghost predicate Valid() {
      Sound(g) && mem.Length == g.size
    }

    ghost function Now(): Chip
      reads this, mem
    {
      Chip(mem[..], failAfterPages)
    }

    // Port initialisation: the whole window starts erased.
    constructor (g: Geometry)
      requires Sound(g)
      ensures Valid() && fresh(mem) && this.g == g
      ensures Now() == Chip(Erased(g.size), 0)
    {
      this.g := g;
      mem := new u8[g.size](_ => BLANK);
      failAfterPages := 0;
      new;
      assert mem[..] == Erased(g.size);
    }

    method Read(off: nat, len: nat) returns (r: Result<seq<u8>>)
      requires Valid()
      ensures r == if InRange(g, off, len) then Ok(mem[off..off + len]) else Err(EINVAL)
    {
      if !InRange(g, off, len) {
        return Err(EINVAL);
      }
      return Ok(mem[off..off + len]);
    }

    method Write(off: nat, data: seq<u8>) returns (err: Option<Errno>)
      requires Valid()
      modifies this, mem
      ensures Wrote(g, old(Now()), Now(), off, data, err)
    {
      if !InRange(g, off, |data|) {
        return Some(EINVAL);
      }
      if off % g.page != 0 || |data| % g.page != 0 {
        return Some(EINVAL);
      }
      err := RamWrite(off, data);
    }

    method RamWrite(off: nat, data: seq<u8>) returns (err: Option<Errno>)
      requires Valid() && off + |data| <= g.size
      modifies this, mem
      ensures Programmed(Now(), err) == Program(old(Now()), off, data, g.page)
    {
      hide Program, Splice;
      var pos := 0;
      assert data[0..] == data;
      while |data| - pos >= g.page
        invariant pos <= |data|
        invariant Program(Now(), off + pos, data[pos..], g.page) == Program(old(Now()), off, data, g.page)
      {
        ghost var rest := data[pos..];
        assert rest[..g.page / 2] == data[pos..pos + g.page / 2];
        assert rest[..g.page] == data[pos..pos + g.page] && rest[g.page..] == data[pos + g.page..];
        ProgramUnfolds(Now(), off + pos, rest, g.page);
        if failAfterPages != 0 {
          failAfterPages := failAfterPages - 1;
          if failAfterPages == 0 {
            // power loss: half a page lands
            Copy(off + pos, data[pos..pos + g.page / 2]);
            return Some(EIO);
          }
        }
        var blank := RamIsBlank(off + pos, g.page);
        if !blank {
          return Some(EACCES);
        }
        Copy(off + pos, data[pos..pos + g.page]);
        pos := pos + g.page;
      }
      ProgramUnfolds(Now(), off + pos, data[pos..], g.page);
      return None;
    }

    method Copy(at: nat, src: seq<u8>)
      requires at + |src| <= mem.Length
      modifies mem
      ensures mem[..] == Splice(old(mem[..]), at, src)
    {
      forall i | 0 <= i < |src| {
        mem[at + i] := src[i];
      }
    }

    method RamIsBlank(off: nat, len: nat) returns (blank: bool)
      requires off + len <= mem.Length
      ensures blank == BlankAt(mem[..], off, len)
    {
      for i := 0 to len
        invariant forall k :: off <= k < off + i ==> mem[k] == BLANK
      {
        if mem[off + i] != BLANK {
          return false;
        }
      }
      return true;
    }

    method IsBlank(off: nat, len: nat) returns (r: Result<bool>)
      requires Valid()
      ensures r == if InRange(g, off, len) then Ok(BlankAt(mem[..], off, len)) else Err(EINVAL)
    {
      if !InRange(g, off, len) {
        return Err(EINVAL);
      }
      var blank := RamIsBlank(off, len);
      return Ok(blank);
    }

    method Erase(off: nat, len: nat) returns (err: Option<Errno>)
      requires Valid()
      modifies mem
      ensures WasErased(g, old(Now()), Now(), off, len, err)
    {
      if !InRange(g, off, len) {
        return Some(EINVAL);
      }
      if off % g.sector != 0 || len % g.sector != 0 {
        return Some(EINVAL);
      }
      err := RamErase(off, len);
    }

    method RamErase(off: nat, len: nat) returns (err: Option<Errno>)
      requires off + len <= mem.Length
      modifies mem
      ensures mem[..] == Splice(old(mem[..]), off, Erased(len)) && err == None
    {
      forall i | off <= i < off + len {
        mem[i] := BLANK;
      }
      return None;
    }

    // One erase command per sector.
    method EraseSectors(off: nat, len: nat) returns (err: Option<Errno>)
      requires Valid()
      modifies mem
      ensures WasErased(g, old(Now()), Now(), off, len, err)
    {
      if !InRange(g, off, len) {
        return Some(EINVAL);
      }
      if off % g.sector != 0 || len % g.sector != 0 {
        return Some(EINVAL);
      }
      err := RamEraseSectors(off, len);
    }

    method RamEraseSectors(off: nat, len: nat) returns (err: Option<Errno>)
      requires Valid() && off + len <= mem.Length && Whole(len, g.sector)
      modifies mem
      ensures mem[..] == Splice(old(mem[..]), off, Erased(len)) && err == None
    {
      var done := 0;
      assert Splice(mem[..], off, Erased(0)) == mem[..];
      var sector := g.sector;
      hide Splice, Whole, Sound, Erased;
      while done < len
        invariant done <= len && Whole(len - done, sector)
        invariant mem[..] == Splice(old(mem[..]), off, Erased(done))
      {
        SectorLeft(len - done, sector);
        err := EraseSector(old(mem[..]), off, done, sector);
        if err.Some? {
          return err;
        }
        done := done + sector;
      }
      return None;
    }

    method EraseSector(ghost was: seq<u8>, off: nat, done: nat, sector: nat) returns (err: Option<Errno>)
      requires off + done + sector <= mem.Length == |was| && mem[..] == Splice(was, off, Erased(done))
      modifies mem
      ensures mem[..] == Splice(was, off, Erased(done + sector)) && err == None
    {
      hide Splice;
      err := RamErase(off + done, sector);
      ErasedFurther(was, off, done, sector);
    }
  }

  lemma SectorLeft(left: nat, sector: nat)
    requires sector > 0 && left > 0 && Whole(left, sector)
    ensures sector <= left && Whole(left - sector, sector)
  {
    ModLess(left, sector);
  }

  lemma ErasedFurther(m: seq<u8>, off: nat, done: nat, more: nat)
    requires off + done + more <= |m|
    ensures Splice(Splice(m, off, Erased(done)), off + done, Erased(more)) == Splice(m, off, Erased(done + more))
  {
    SpliceTwice(m, off, Erased(done), Erased(more));
    assert Erased(done) + Erased(more) == Erased(done + more);
  }

  lemma ProgramUnfolds(c: Chip, off: nat, data: seq<u8>, page: nat)
    requires page > 0 && off + |data| <= |c.mem|
    ensures |data| < page ==> Program(c, off, data, page) == Programmed(c, None)
    ensures |data| >= page && c.failAfter == 1 ==>
      Program(c, off, data, page) == Programmed(Chip(Splice(c.mem, off, data[..page / 2]), 0), Some(EIO))
    ensures |data| >= page && c.failAfter != 1 && !BlankAt(c.mem, off, page) ==>
      Program(c, off, data, page) == Programmed(Chip(c.mem, Less(c.failAfter)), Some(EACCES))
    ensures |data| >= page && c.failAfter != 1 && BlankAt(c.mem, off, page) ==>
      Program(c, off, data, page) ==
      Program(Chip(Splice(c.mem, off, data[..page]), Less(c.failAfter)), off + page, data[page..], page)
  {
  }
}
