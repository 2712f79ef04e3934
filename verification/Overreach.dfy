/** What allocate_block does to the layout when it has no header room for the payload, and when it is asked for
    a negative size: it compares the block's total size with the payload and with nothing else. */
module Overreach {
  import opened Layout
  import opened Carving

  /** No layout at all describes this memory. */
  ghost predicate Broken(p: Params, mem: Memory) {
    forall pages: seq<Owned> :: !LaidOut(p, mem, pages)
  }

  /** The header of the new trailing block falls on the header of the page's `j`-th block. */
  predicate LandsOn(p: Params, o: Owned, size: int, j: nat) {
    j <= |o.sizes| && size + p.blockHeader == Used(p, o.sizes, j) - Used(p, o.sizes, |o.sizes|)
  }

  /** The cases that leave memory describable: a payload with header room, or a negative size that cuts the block
      list back to one of its blocks. */
  ghost predicate Describable(p: Params, o: Owned, size: int) {
    if 0 <= size then HasRoom(p, o, size) else exists j: nat :: LandsOn(p, o, size, j)
  }

  function CutBack(pages: seq<Owned>, i: nat, j: nat): seq<Owned>
    requires i < |pages| && j <= |pages[i].sizes|
  {
    pages[i := pages[i].(sizes := pages[i].sizes[..j])]
  }

  // ----- what is in memory afterwards

  function TakenCell(p: Params, b: int, size: int, rest: int): Cell {
    BlockCell(Block(true, size, size + p.blockHeader, b, b + p.blockHeader, rest))
  }

  function LeftCell(p: Params, o: Owned, size: int, rest: int): Cell {
    BlockCell(Block(false, 0, Trailing(p, o) - size - p.blockHeader, rest, rest + p.blockHeader, 0))
  }

  /** The page's header, counting the payload and its header. */
  function CountedPage(p: Params, pages: seq<Owned>, i: nat, size: int): Cell
    requires i < |pages|
  {
    var page := ExpectedPage(p, pages, i).page;
    PageCell(page.(sizeOfAllocated := page.sizeOfAllocated + size + p.blockHeader))
  }

  /** Whatever is in memory after an allocation was written by it or was there before. */
  lemma AllocOrigin(p: Params, mem: Memory, pages: seq<Owned>, i: nat, size: int, x: int)
    requires i < |pages| && x in AllocMem(p, mem, pages, i, size)
    ensures var o := pages[i]; var n := |o.sizes|; var b := BlockAddr(p, i, o.sizes, n);
            var rest := b + p.blockHeader + size; var d := AllocMem(p, mem, pages, i, size)[x];
            if x == PageAddr(p, i) then d == CountedPage(p, pages, i, size)
            else if Trailing(p, o) != size && x == rest then d == LeftCell(p, o, size, rest)
            else if x == b then d == TakenCell(p, b, size, if Trailing(p, o) == size then 0 else rest)
            else Has(mem, x, d) || (n != 0 && x == BlockAddr(p, i, o.sizes, n - 1) && d == ExpectedBlock(p, i, o, n - 1))
  {
    hide Write, BlockAddr;
    var o := pages[i];
    var n := |o.sizes|;
    var b := BlockAddr(p, i, o.sizes, n);
    var rest := b + p.blockHeader + size;
    var page' := CountedPage(p, pages, i, size);
    if Trailing(p, o) == size {
      var taken := TakenCell(p, b, size, 0);
      WriteHas(p, mem, b, taken);
      WriteHas(p, Write(p, mem, b, taken), PageAddr(p, i), page');
    } else {
      var m1 := if n == 0 then mem else Write(p, mem, BlockAddr(p, i, o.sizes, n - 1), ExpectedBlock(p, i, o, n - 1));
      var m2 := Write(p, m1, b, TakenCell(p, b, size, rest));
      var m3 := Write(p, m2, rest, LeftCell(p, o, size, rest));
      if n != 0 { WriteHas(p, mem, BlockAddr(p, i, o.sizes, n - 1), ExpectedBlock(p, i, o, n - 1)); }
      WriteHas(p, m1, b, TakenCell(p, b, size, rest));
      WriteHas(p, m2, rest, LeftCell(p, o, size, rest));
      WriteHas(p, m3, PageAddr(p, i), page');
    }
  }

  lemma AllocHeader(p: Params, mem: Memory, pages: seq<Owned>, i: nat, size: int)
    requires i < |pages|
    ensures Has(AllocMem(p, mem, pages, i, size), PageAddr(p, i), CountedPage(p, pages, i, size))
  {
  }

  // ----- a description of it

  /** A layout of the memory afterwards describes page `i` as assigned, with the count found in its header. */
  lemma DescribesPage(p: Params, mem: Memory, pages: seq<Owned>, i: nat, size: int, q: seq<Owned>)
    requires Sensible(p) && LaidOut(p, mem, pages) && i < |pages| && LaidOut(p, AllocMem(p, mem, pages, i, size), q)
    ensures i < |q| && HoldsPage(p, AllocMem(p, mem, pages, i, size), q, i)
    ensures Used(p, q[i].sizes, |q[i].sizes|) == Used(p, pages[i].sizes, |pages[i].sizes|) + size + p.blockHeader
  {
    hide AllocMem;
    var m := AllocMem(p, mem, pages, i, size);
    AllocHeader(p, mem, pages, i, size);
    assert HoldsPage(p, mem, pages, i);
    if i < |q| {
      assert HoldsPage(p, m, q, i);
    } else if |q| < i {
      PageOrder(p, |q|, i);
      assert HoldsPage(p, mem, pages, |q|);
      assert Has(m, PageAddr(p, |q|), ExpectedRest(p, |q|));
      AllocOrigin(p, mem, pages, i, size, PageAddr(p, |q|));
      assert false;
    } else {
      assert false;
    }
  }

  /** The block list of such a description follows the old one, block by block, and ends at one of its blocks. */
  lemma {:induction false} FollowsOldBlocks(p: Params, mem: Memory, pages: seq<Owned>, i: nat, size: int, q: seq<Owned>, l: nat)
    requires Sensible(p) && LaidOut(p, mem, pages) && i < |pages| && size < 0
    requires i < |q| && HoldsPage(p, AllocMem(p, mem, pages, i, size), q, i)
    requires Used(p, q[i].sizes, |q[i].sizes|) == Used(p, pages[i].sizes, |pages[i].sizes|) + size + p.blockHeader
    requires l <= |pages[i].sizes| && l <= |q[i].sizes| && Used(p, q[i].sizes, l) == Used(p, pages[i].sizes, l)
    ensures exists j: nat :: LandsOn(p, pages[i], size, j)
    decreases |pages[i].sizes| - l
  {
    hide AllocMem;
    var o, r, m := pages[i], q[i].sizes, AllocMem(p, mem, pages, i, size);
    var n, x := |o.sizes|, BlockAddr(p, i, r, l);
    if !LandsOn(p, o, size, l) {
      assert l < |r| && x == BlockAddr(p, i, o.sizes, l);
      assert Has(m, x, ExpectedBlock(p, i, q[i], l));
      assert HoldsPage(p, mem, pages, i);
      BlockInside(p, i, o, l);
      AllocOrigin(p, mem, pages, i, size, x);
      if l < n {
        HeadersApart(p, i, o, l, n);
        assert Has(mem, x, ExpectedBlock(p, i, o, l));
        FollowsOldBlocks(p, mem, pages, i, size, q, l + 1);
      }
    }
  }

  /** Otherwise memory is left that no layout describes. */
  lemma CarveBreaks(p: Params, mem: Memory, pages: seq<Owned>, i: nat, size: int)
    requires Sensible(p) && LaidOut(p, mem, pages) && i < |pages| && !Describable(p, pages[i], size)
    ensures Broken(p, AllocMem(p, mem, pages, i, size))
  {
    hide AllocMem;
    forall q: seq<Owned> ensures !LaidOut(p, AllocMem(p, mem, pages, i, size), q) {
      if LaidOut(p, AllocMem(p, mem, pages, i, size), q) {
        DescribesPage(p, mem, pages, i, size, q);
        if size < 0 { FollowsOldBlocks(p, mem, pages, i, size, q, 0); }
        assert false;
      }
    }
  }

  // ----- a request that cuts the list back

  /** Nothing but the page's own bytes is written. */
  lemma CutWrites(p: Params, mem: Memory, pages: seq<Owned>, i: nat, size: int, j: nat)
    returns (m1: Memory, m2: Memory, m3: Memory)
    requires Sensible(p) && i < |pages| && PageFits(p, pages[i]) && size < 0 && LandsOn(p, pages[i], size, j)
    ensures var o := pages[i]; var n := |o.sizes|; var q := CutBack(pages, i, j);
            && m1 == (if n == 0 then mem else Write(p, mem, BlockAddr(p, i, o.sizes, n - 1), ExpectedBlock(p, i, o, n - 1)))
            && (exists c: Cell :: c.BlockCell? && m2 == Write(p, m1, BlockAddr(p, i, o.sizes, n), c))
            && m3 == Write(p, m2, BlockAddr(p, i, o.sizes, j), ExpectedBlock(p, i, q[i], j))
            && AllocMem(p, mem, pages, i, size) == Write(p, m3, PageAddr(p, i), ExpectedPage(p, q, i))
  {
    hide Write;
    var o := pages[i];
    var n := |o.sizes|;
    var b := BlockAddr(p, i, o.sizes, n);
    var rest := b + p.blockHeader + size;
    UsedPrefix(p, o.sizes, j, j);
    m1 := if n == 0 then mem else Write(p, mem, BlockAddr(p, i, o.sizes, n - 1), ExpectedBlock(p, i, o, n - 1));
    m2 := Write(p, m1, b, TakenCell(p, b, size, rest));
    m3 := Write(p, m2, rest, LeftCell(p, o, size, rest));
    assert rest == BlockAddr(p, i, o.sizes, j);
    assert LeftCell(p, o, size, rest) == ExpectedBlock(p, i, CutBack(pages, i, j)[i], j);
  }

  lemma CutPageHolds(p: Params, mem: Memory, pages: seq<Owned>, i: nat, size: int, j: nat)
    requires Sensible(p) && i < |pages| && HoldsPage(p, mem, pages, i) && size < 0 && LandsOn(p, pages[i], size, j)
    ensures HoldsPage(p, AllocMem(p, mem, pages, i, size), CutBack(pages, i, j), i)
  {
    hide AllocMem, Write, BlockAddr;
    var o, n, q := pages[i], |pages[i].sizes|, CutBack(pages, i, j);
    var m4 := AllocMem(p, mem, pages, i, size);
    var m1, m2, m3 := CutWrites(p, mem, pages, i, size, j);
    var taken: Cell :| taken.BlockCell? && m2 == Write(p, m1, BlockAddr(p, i, o.sizes, n), taken);
    UsedPrefix(p, o.sizes, j, j);
    WriteHas(p, m3, PageAddr(p, i), ExpectedPage(p, q, i));
    forall l | 0 <= l <= j ensures Has(m4, BlockAddr(p, i, q[i].sizes, l), ExpectedBlock(p, i, q[i], l)) {
      CutBlock(p, pages, i, j, l);
      var x, d := BlockAddr(p, i, o.sizes, l), ExpectedBlock(p, i, q[i], l);
      BlockInside(p, i, o, l);
      if l == j {
        WriteHas(p, m2, x, d);
      } else {
        HeadersApart(p, i, o, l, n);
        HeadersApart(p, i, o, l, j);
        if l == n - 1 {
          WriteHas(p, mem, x, d);
        } else {
          HeadersApart(p, i, o, l, n - 1);
          Survives(p, mem, x, d, BlockAddr(p, i, o.sizes, n - 1), ExpectedBlock(p, i, o, n - 1));
        }
        Survives(p, m1, x, d, BlockAddr(p, i, o.sizes, n), taken);
        Survives(p, m2, x, d, BlockAddr(p, i, o.sizes, j), ExpectedBlock(p, i, q[i], j));
      }
      Survives(p, m3, x, d, PageAddr(p, i), ExpectedPage(p, q, i));
    }
    CutFits(p, o, j);
  }

  lemma CutBlock(p: Params, pages: seq<Owned>, i: nat, j: nat, l: nat)
    requires i < |pages| && l <= j <= |pages[i].sizes|
    ensures var q := CutBack(pages, i, j);
            && BlockAddr(p, i, q[i].sizes, l) == BlockAddr(p, i, pages[i].sizes, l)
            && (l < j ==> ExpectedBlock(p, i, q[i], l) == ExpectedBlock(p, i, pages[i], l))
  {
    UsedPrefix(p, pages[i].sizes, j, l);
    if l < j { UsedPrefix(p, pages[i].sizes, j, l + 1); }
  }

  lemma CutFits(p: Params, o: Owned, j: nat)
    requires Sensible(p) && PageFits(p, o) && j <= |o.sizes|
    ensures PageFits(p, o.(sizes := o.sizes[..j]))
  {
    UsedPrefix(p, o.sizes, j, j);
    if j < |o.sizes| { UsedOrder(p, o.sizes, j, |o.sizes|); }
  }

  /** A negative request whose size reaches back to a block leaves the layout with the list cut there. */
  lemma CutKeepsLayout(p: Params, mem: Memory, pages: seq<Owned>, i: nat, size: int, j: nat)
    requires Sensible(p) && LaidOut(p, mem, pages) && i < |pages| && size < 0 && LandsOn(p, pages[i], size, j)
    ensures LaidOut(p, AllocMem(p, mem, pages, i, size), CutBack(pages, i, j))
  {
    hide AllocMem, Write, BlockAddr, HoldsRest;
    var o, n, q := pages[i], |pages[i].sizes|, CutBack(pages, i, j);
    assert HoldsPage(p, mem, pages, i);
    CutPageHolds(p, mem, pages, i, size, j);
    var m1, m2, m3 := CutWrites(p, mem, pages, i, size, j);
    var taken: Cell :| taken.BlockCell? && m2 == Write(p, m1, BlockAddr(p, i, o.sizes, n), taken);
    BlockInside(p, i, o, n);
    BlockInside(p, i, o, j);
    PageOrder(p, i, |pages|);
    if n != 0 { BlockInside(p, i, o, n - 1); }
    forall k | 0 <= k < |pages| && k != i ensures HoldsPage(p, AllocMem(p, mem, pages, i, size), q, k) {
      if i < k { PageOrder(p, i, k); } else { PageOrder(p, k, i); }
      if n != 0 { KeepsPage(p, mem, pages, k, BlockAddr(p, i, o.sizes, n - 1), ExpectedBlock(p, i, o, n - 1)); }
      KeepsPage(p, m1, pages, k, BlockAddr(p, i, o.sizes, n), taken);
      KeepsPage(p, m2, pages, k, BlockAddr(p, i, o.sizes, j), ExpectedBlock(p, i, q[i], j));
      KeepsPage(p, m3, pages, k, PageAddr(p, i), ExpectedPage(p, q, i));
      assert ExpectedPage(p, q, k) == ExpectedPage(p, pages, k);
    }
    if n != 0 { KeepsRest(p, mem, |pages|, BlockAddr(p, i, o.sizes, n - 1), ExpectedBlock(p, i, o, n - 1)); }
    KeepsRest(p, m1, |pages|, BlockAddr(p, i, o.sizes, n), taken);
    KeepsRest(p, m2, |pages|, BlockAddr(p, i, o.sizes, j), ExpectedBlock(p, i, q[i], j));
    KeepsRest(p, m3, |pages|, PageAddr(p, i), ExpectedPage(p, q, i));
  }

  /** For every size, negative ones too, allocating keeps memory describable exactly when the payload has header
      room or the list is cut back to a block. */
  lemma CarveSoundExactly(p: Params, mem: Memory, pages: seq<Owned>, i: nat, size: int)
    requires Sensible(p) && LaidOut(p, mem, pages) && i < |pages|
    ensures !Broken(p, AllocMem(p, mem, pages, i, size)) <==> Describable(p, pages[i], size)
  {
    if !Describable(p, pages[i], size) {
      CarveBreaks(p, mem, pages, i, size);
    } else if 0 <= size {
      CarveKeepsLayout(p, mem, pages, i, size);
    } else {
      var j: nat :| LandsOn(p, pages[i], size, j);
      CutKeepsLayout(p, mem, pages, i, size, j);
    }
  }
}
