/** What the header writes of memory_manager.c do to the layout: assigning a page, carving a block, and
    clients storing into their payloads. */
module Carving {
  import opened Layout

  lemma Survives(p: Params, mem: Memory, x: int, d: Cell, a: int, c: Cell)
    requires Has(mem, x, d) && x != a && Apart(x, Extent(p, d), a, Extent(p, c))
    ensures Has(Write(p, mem, a, c), x, d)
  {
  }

  /** A write outside a page's bytes leaves that page alone. */
  lemma KeepsPage(p: Params, mem: Memory, pages: seq<Owned>, i: nat, a: int, c: Cell)
    requires Sensible(p) && i < |pages| && HoldsPage(p, mem, pages, i)
    requires Apart(PageAddr(p, i), p.pageSize, a, Extent(p, c)) && 0 < Extent(p, c)
    ensures HoldsPage(p, Write(p, mem, a, c), pages, i)
  {
    hide Write, BlockAddr;
    var o := pages[i];
    BlockInside(p, i, o, 0);
    Survives(p, mem, PageAddr(p, i), ExpectedPage(p, pages, i), a, c);
    forall j | 0 <= j <= |o.sizes| ensures Has(Write(p, mem, a, c), BlockAddr(p, i, o.sizes, j), ExpectedBlock(p, i, o, j)) {
      BlockInside(p, i, o, j);
      Survives(p, mem, BlockAddr(p, i, o.sizes, j), ExpectedBlock(p, i, o, j), a, c);
    }
  }

  lemma KeepsRest(p: Params, mem: Memory, k: nat, a: int, c: Cell)
    requires Sensible(p) && HoldsRest(p, mem, k) && 0 < Extent(p, c)
    requires a < PageAddr(p, k) && Apart(PageAddr(p, k), p.pageHeader, a, Extent(p, c))
    ensures HoldsRest(p, Write(p, mem, a, c), k)
  {
  }

  // ----- carving a block off the end of a page

  ghost function Carved(pages: seq<Owned>, i: nat, size: int): (r: seq<Owned>)
    requires i < |pages|
  {
    pages[i := pages[i].(sizes := pages[i].sizes + [size])]
  }

  /** The trailing block has room for the payload and two headers: its own and the next one's. */
  predicate HasRoom(p: Params, o: Owned, size: int) {
    size + 2 * p.blockHeader <= Trailing(p, o)
  }

  /** Memory after allocate_block has used the trailing block of page `i`: with the sizes equal the block
      is taken whole, otherwise it is split. */
  function AllocMem(p: Params, mem: Memory, pages: seq<Owned>, i: nat, size: int): Memory
    requires i < |pages|
  {
    var o := pages[i];
    var n := |o.sizes|;
    var b := BlockAddr(p, i, o.sizes, n);
    var page := ExpectedPage(p, pages, i).page;
    var page' := PageCell(page.(sizeOfAllocated := page.sizeOfAllocated + size + p.blockHeader));
    if Trailing(p, o) == size then
      Write(p, Write(p, mem, b, BlockCell(Block(true, size, size + p.blockHeader, b, b + p.blockHeader, 0))),
            page.start, page')
    else
      var rest := b + p.blockHeader + size;
      var m1 := if n == 0 then mem else Write(p, mem, BlockAddr(p, i, o.sizes, n - 1), ExpectedBlock(p, i, o, n - 1));
      var m2 := Write(p, m1, b, BlockCell(Block(true, size, size + p.blockHeader, b, b + p.blockHeader, rest)));
      var m3 := Write(p, m2, rest, BlockCell(Block(false, 0, Trailing(p, o) - size - p.blockHeader, rest, rest + p.blockHeader, 0)));
      Write(p, m3, page.start, page')
  }

  lemma CarvedFits(p: Params, o: Owned, size: int)
    requires Sensible(p) && PageFits(p, o) && 0 <= size
    ensures var o' := o.(sizes := o.sizes + [size]);
            Trailing(p, o') == Trailing(p, o) - size - p.blockHeader && (PageFits(p, o') <==> HasRoom(p, o, size))
  {
    UsedAppend(p, o.sizes, size, |o.sizes|);
  }

  /** The blocks before the new one are expected where and as they were. */
  lemma CarvedBlocks(p: Params, i: nat, o: Owned, size: int, j: nat)
    requires j <= |o.sizes|
    ensures var o' := o.(sizes := o.sizes + [size]);
            && BlockAddr(p, i, o'.sizes, j) == BlockAddr(p, i, o.sizes, j)
            && (j < |o.sizes| ==> ExpectedBlock(p, i, o', j) == ExpectedBlock(p, i, o, j))
  {
    UsedAppend(p, o.sizes, size, j);
    if j < |o.sizes| { UsedAppend(p, o.sizes, size, j + 1); }
  }

  /** The four writes of a split. */
  ghost predicate SplitWrites(p: Params, i: nat, o': Owned, n: nat, header: Cell, mem: Memory, m1: Memory, m2: Memory, m3: Memory, m4: Memory)
  {
    && |o'.sizes| == n + 1
    && m1 == (if n == 0 then mem else Write(p, mem, BlockAddr(p, i, o'.sizes, n - 1), ExpectedBlock(p, i, o', n - 1)))
    && m2 == Write(p, m1, BlockAddr(p, i, o'.sizes, n), ExpectedBlock(p, i, o', n))
    && m3 == Write(p, m2, BlockAddr(p, i, o'.sizes, n + 1), ExpectedBlock(p, i, o', n + 1))
    && m4 == Write(p, m3, PageAddr(p, i), header) && header.PageCell?
  }

  /** A cell apart from the page's header and its last three block headers survives a split. */
  lemma SplitSurvives(p: Params, i: nat, o': Owned, n: nat, header: Cell,
                      mem: Memory, m1: Memory, m2: Memory, m3: Memory, m4: Memory, x: int, d: Cell)
    requires SplitWrites(p, i, o', n, header, mem, m1, m2, m3, m4) && Has(mem, x, d)
    requires x != PageAddr(p, i) && Apart(x, Extent(p, d), PageAddr(p, i), p.pageHeader)
    requires forall k :: n - 1 <= k <= n + 1 && 0 <= k ==>
               x != BlockAddr(p, i, o'.sizes, k) && Apart(x, Extent(p, d), BlockAddr(p, i, o'.sizes, k), p.blockHeader)
    ensures Has(m4, x, d)
  {
  }

  /** The last three block headers are in place after a split. */
  lemma SplitWritten(p: Params, i: nat, o': Owned, n: nat, header: Cell,
                     mem: Memory, m1: Memory, m2: Memory, m3: Memory, m4: Memory, k: nat)
    requires Sensible(p) && PageFits(p, o') && SplitWrites(p, i, o', n, header, mem, m1, m2, m3, m4)
    requires n - 1 <= k <= n + 1
    ensures Has(m4, BlockAddr(p, i, o'.sizes, k), ExpectedBlock(p, i, o', k))
  {
    hide Write, BlockAddr, PageFits;
    var x, d := BlockAddr(p, i, o'.sizes, k), ExpectedBlock(p, i, o', k);
    if k == n - 1 {
      WriteHas(p, mem, x, d);
      HeadersApart(p, i, o', k, n);
      Survives(p, m1, x, d, BlockAddr(p, i, o'.sizes, n), ExpectedBlock(p, i, o', n));
    }
    if k == n { WriteHas(p, m1, x, d); }
    if k <= n {
      HeadersApart(p, i, o', k, n + 1);
      Survives(p, m2, x, d, BlockAddr(p, i, o'.sizes, n + 1), ExpectedBlock(p, i, o', n + 1));
    } else {
      WriteHas(p, m2, x, d);
    }
    BlockInside(p, i, o', k);
    Survives(p, m3, x, d, PageAddr(p, i), header);
  }

  lemma CarvedPages(p: Params, pages: seq<Owned>, i: nat, size: int)
    requires i < |pages|
    ensures var q := Carved(pages, i, size);
            && |q| == |pages| && q[i].sizes == pages[i].sizes + [size]
            && (forall k :: 0 <= k < |pages| && k != i ==> q[k] == pages[k] && ExpectedPage(p, q, k) == ExpectedPage(p, pages, k))
            && ExpectedPage(p, q, i) == PageCell(ExpectedPage(p, pages, i).page.(
                 sizeOfAllocated := ExpectedPage(p, pages, i).page.sizeOfAllocated + size + p.blockHeader))
  {
    UsedAppend(p, pages[i].sizes, size, |pages[i].sizes|);
  }

  /** With header room, the writes of a split are those of the intended layout. */
  lemma AllocIsSplit(p: Params, mem: Memory, pages: seq<Owned>, i: nat, size: int)
    returns (m1: Memory, m2: Memory, m3: Memory)
    requires Sensible(p) && i < |pages| && PageFits(p, pages[i]) && 0 <= size && HasRoom(p, pages[i], size)
    ensures var q := Carved(pages, i, size);
            SplitWrites(p, i, q[i], |pages[i].sizes|, ExpectedPage(p, q, i), mem, m1, m2, m3, AllocMem(p, mem, pages, i, size))
  {
    hide Write, BlockAddr, ExpectedBlock, HasRoom, PageFits;
    var o := pages[i];
    var n := |o.sizes|;
    var b := BlockAddr(p, i, o.sizes, n);
    var rest := b + p.blockHeader + size;
    CarvedPages(p, pages, i, size);
    CarvedCells(p, i, o, size);
    if n != 0 { CarvedBlocks(p, i, o, size, n - 1); }
    m1 := if n == 0 then mem else Write(p, mem, BlockAddr(p, i, o.sizes, n - 1), ExpectedBlock(p, i, o, n - 1));
    m2 := Write(p, m1, b, BlockCell(Block(true, size, size + p.blockHeader, b, b + p.blockHeader, rest)));
    m3 := Write(p, m2, rest, BlockCell(Block(false, 0, Trailing(p, o) - size - p.blockHeader, rest, rest + p.blockHeader, 0)));
    SplitsBlock(p, o, size);
  }

  /** The two headers of a split, where and as the new list expects them. */
  lemma CarvedCells(p: Params, i: nat, o: Owned, size: int)
    ensures var o' := o.(sizes := o.sizes + [size]); var n := |o.sizes|;
            var b := BlockAddr(p, i, o.sizes, n); var rest := b + p.blockHeader + size;
            && BlockAddr(p, i, o'.sizes, n) == b && BlockAddr(p, i, o'.sizes, n + 1) == rest
            && ExpectedBlock(p, i, o', n) == BlockCell(Block(true, size, size + p.blockHeader, b, b + p.blockHeader, rest))
            && ExpectedBlock(p, i, o', n + 1) ==
               BlockCell(Block(false, 0, Trailing(p, o) - size - p.blockHeader, rest, rest + p.blockHeader, 0))
  {
    UsedAppend(p, o.sizes, size, |o.sizes|);
  }

  lemma SplitsBlock(p: Params, o: Owned, size: int)
    requires Sensible(p) && HasRoom(p, o, size)
    ensures Trailing(p, o) != size
  {
  }

  lemma CarvedPageHolds(p: Params, mem: Memory, pages: seq<Owned>, i: nat, size: int)
    requires Sensible(p) && i < |pages| && HoldsPage(p, mem, pages, i) && 0 <= size && HasRoom(p, pages[i], size)
    ensures HoldsPage(p, AllocMem(p, mem, pages, i, size), Carved(pages, i, size), i)
  {
    hide AllocMem, Write, BlockAddr;
    var o, q, m4 := pages[i], Carved(pages, i, size), AllocMem(p, mem, pages, i, size);
    var o' := q[i];
    var n := |o.sizes|;
    CarvedPages(p, pages, i, size);
    CarvedFits(p, o, size);
    var m1, m2, m3 := AllocIsSplit(p, mem, pages, i, size);
    WriteHas(p, m3, PageAddr(p, i), ExpectedPage(p, q, i));
    forall j | 0 <= j <= n + 1 ensures Has(m4, BlockAddr(p, i, o'.sizes, j), ExpectedBlock(p, i, o', j)) {
      if n - 1 <= j {
        SplitWritten(p, i, o', n, ExpectedPage(p, q, i), mem, m1, m2, m3, m4, j);
      } else {
        CarvedBlocks(p, i, o, size, j);
        assert Has(mem, BlockAddr(p, i, o.sizes, j), ExpectedBlock(p, i, o, j));
        HeaderKept(p, i, o', n, ExpectedPage(p, q, i), mem, m1, m2, m3, m4, j);
      }
    }
  }

  lemma HeaderKept(p: Params, i: nat, o': Owned, n: nat, header: Cell,
                   mem: Memory, m1: Memory, m2: Memory, m3: Memory, m4: Memory, j: nat)
    requires Sensible(p) && PageFits(p, o') && SplitWrites(p, i, o', n, header, mem, m1, m2, m3, m4)
    requires |o'.sizes| == n + 1 && j < n - 1 && Has(mem, BlockAddr(p, i, o'.sizes, j), ExpectedBlock(p, i, o', j))
    ensures Has(m4, BlockAddr(p, i, o'.sizes, j), ExpectedBlock(p, i, o', j))
  {
    hide Write, BlockAddr, PageFits, SplitWrites;
    BlockInside(p, i, o', j);
    forall k | n - 1 <= k <= n + 1 && 0 <= k
      ensures BlockAddr(p, i, o'.sizes, j) != BlockAddr(p, i, o'.sizes, k)
              && Apart(BlockAddr(p, i, o'.sizes, j), p.blockHeader, BlockAddr(p, i, o'.sizes, k), p.blockHeader)
    {
      HeadersApart(p, i, o', j, k);
    }
    SplitSurvives(p, i, o', n, header, mem, m1, m2, m3, m4, BlockAddr(p, i, o'.sizes, j), ExpectedBlock(p, i, o', j));
  }

  /** A split writes only inside its page. */
  lemma SplitKeepsElsewhere(p: Params, i: nat, o': Owned, n: nat, header: Cell,
                            mem: Memory, m1: Memory, m2: Memory, m3: Memory, m4: Memory, x: int, d: Cell)
    requires Sensible(p) && PageFits(p, o') && |o'.sizes| == n + 1
    requires SplitWrites(p, i, o', n, header, mem, m1, m2, m3, m4) && Has(mem, x, d)
    requires 0 < Extent(p, d) && Apart(x, Extent(p, d), PageAddr(p, i), p.pageSize)
    ensures Has(m4, x, d)
  {
    hide Write, BlockAddr, SplitWrites;
    forall k | n - 1 <= k <= n + 1 && 0 <= k
      ensures x != BlockAddr(p, i, o'.sizes, k) && Apart(x, Extent(p, d), BlockAddr(p, i, o'.sizes, k), p.blockHeader)
    {
      BlockInside(p, i, o', k);
    }
    SplitSurvives(p, i, o', n, header, mem, m1, m2, m3, m4, x, d);
  }

  lemma OtherPageHolds(p: Params, mem: Memory, pages: seq<Owned>, i: nat, size: int, k: nat)
    requires Sensible(p) && i < |pages| && k < |pages| && i != k && HoldsPage(p, mem, pages, k)
    requires HoldsPage(p, mem, pages, i) && 0 <= size && HasRoom(p, pages[i], size)
    ensures HoldsPage(p, AllocMem(p, mem, pages, i, size), Carved(pages, i, size), k)
  {
    hide AllocMem, Write, BlockAddr;
    var q, m4 := Carved(pages, i, size), AllocMem(p, mem, pages, i, size);
    CarvedPages(p, pages, i, size);
    CarvedFits(p, pages[i], size);
    var m1, m2, m3 := AllocIsSplit(p, mem, pages, i, size);
    if i < k { PageOrder(p, i, k); } else { PageOrder(p, k, i); }
    var o := pages[k];
    BlockInside(p, k, o, 0);
    SplitKeepsElsewhere(p, i, q[i], |pages[i].sizes|, ExpectedPage(p, q, i), mem, m1, m2, m3, m4,
                        PageAddr(p, k), ExpectedPage(p, pages, k));
    forall j | 0 <= j <= |o.sizes| ensures Has(m4, BlockAddr(p, k, o.sizes, j), ExpectedBlock(p, k, o, j)) {
      BlockInside(p, k, o, j);
      SplitKeepsElsewhere(p, i, q[i], |pages[i].sizes|, ExpectedPage(p, q, i), mem, m1, m2, m3, m4,
                          BlockAddr(p, k, o.sizes, j), ExpectedBlock(p, k, o, j));
    }
  }

  lemma RestHolds(p: Params, mem: Memory, pages: seq<Owned>, i: nat, size: int)
    requires Sensible(p) && i < |pages| && PageFits(p, pages[i]) && HoldsRest(p, mem, |pages|)
    requires 0 <= size && HasRoom(p, pages[i], size)
    ensures HoldsRest(p, AllocMem(p, mem, pages, i, size), |pages|)
  {
    hide AllocMem, Write, BlockAddr;
    var q := Carved(pages, i, size);
    CarvedPages(p, pages, i, size);
    CarvedFits(p, pages[i], size);
    var m1, m2, m3 := AllocIsSplit(p, mem, pages, i, size);
    PageOrder(p, i, |pages|);
    if Remainder(p, |pages|) != 0 {
      SplitKeepsElsewhere(p, i, q[i], |pages[i].sizes|, ExpectedPage(p, q, i), mem, m1, m2, m3,
                          AllocMem(p, mem, pages, i, size), PageAddr(p, |pages|), ExpectedRest(p, |pages|));
    }
  }

  /** With header room, carving keeps the layout: the chosen page gains one block, all else stands. */
  lemma CarveKeepsLayout(p: Params, mem: Memory, pages: seq<Owned>, i: nat, size: int)
    requires Sensible(p) && LaidOut(p, mem, pages) && i < |pages| && 0 <= size && HasRoom(p, pages[i], size)
    ensures LaidOut(p, AllocMem(p, mem, pages, i, size), Carved(pages, i, size))
  {
    assert PageFits(p, pages[i]) by { assert HoldsPage(p, mem, pages, i); }
    hide AllocMem, HoldsPage, HoldsRest, HasRoom, PageFits;
    CarvedPageHolds(p, mem, pages, i, size);
    forall k | 0 <= k < |pages| && k != i
      ensures HoldsPage(p, AllocMem(p, mem, pages, i, size), Carved(pages, i, size), k)
    {
      OtherPageHolds(p, mem, pages, i, size, k);
    }
    RestHolds(p, mem, pages, i, size);
  }

  // ----- client data

  /** Bytes inside a payload are apart from the headers of every page and from the unassigned rest. */
  lemma PayloadPlace(p: Params, i: nat, o: Owned, j: nat, x: int, len: int)
    requires Sensible(p) && PageFits(p, o) && j < |o.sizes| && InPayload(p, i, o.sizes, j, x, len)
    ensures PageAddr(p, i) + p.pageHeader <= x && x + len <= PageAddr(p, i) + p.pageSize
    ensures forall k :: 0 <= k <= |o.sizes| ==> Apart(x, len, BlockAddr(p, i, o.sizes, k), p.blockHeader) && x != BlockAddr(p, i, o.sizes, k)
  {
    hide BlockAddr;
    BlockInside(p, i, o, j);
    forall k | 0 <= k <= |o.sizes|
      ensures Apart(x, len, BlockAddr(p, i, o.sizes, k), p.blockHeader) && x != BlockAddr(p, i, o.sizes, k)
    {
      PayloadHeaderApart(p, i, o, j, k);
    }
  }

  /** Carving overwrites nothing that a client stored. */
  lemma CarveKeepsCell(p: Params, mem: Memory, pages: seq<Owned>, i: nat, size: int, x: int)
    requires Sensible(p) && LaidOut(p, mem, pages) && i < |pages| && 0 <= size && HasRoom(p, pages[i], size)
    requires x in mem && mem[x].DataCell? && InSomePayload(p, pages, x, mem[x].len)
    ensures Has(AllocMem(p, mem, pages, i, size), x, mem[x])
    ensures InSomePayload(p, Carved(pages, i, size), x, mem[x].len)
  {
    hide AllocMem, Write, BlockAddr, PayloadAddr, SplitWrites;
    var len := mem[x].len;
    var k, j :| 0 <= k < |pages| && 0 <= j < |pages[k].sizes| && InPayload(p, k, pages[k].sizes, j, x, len);
    var q := Carved(pages, i, size);
    CarvedPages(p, pages, i, size);
    assert HoldsPage(p, mem, pages, i) && HoldsPage(p, mem, pages, k);
    CarvedFits(p, pages[i], size);
    var m1, m2, m3 := AllocIsSplit(p, mem, pages, i, size);
    var m4 := AllocMem(p, mem, pages, i, size);
    if k == i {
      CarvedPayload(p, i, pages[i], size, j);
      assert InPayload(p, i, q[i].sizes, j, x, len);
      PayloadPlace(p, i, q[i], j, x, len);
      SplitSurvives(p, i, q[i], |pages[i].sizes|, ExpectedPage(p, q, i), mem, m1, m2, m3, m4, x, mem[x]);
    } else {
      assert InPayload(p, k, q[k].sizes, j, x, len);
      PayloadPlace(p, k, pages[k], j, x, len);
      if i < k { PageOrder(p, i, k); } else { PageOrder(p, k, i); }
      SplitKeepsElsewhere(p, i, q[i], |pages[i].sizes|, ExpectedPage(p, q, i), mem, m1, m2, m3, m4, x, mem[x]);
    }
  }

  lemma CarvedPayload(p: Params, i: nat, o: Owned, size: int, j: nat)
    requires j < |o.sizes|
    ensures PayloadAddr(p, i, o.sizes + [size], j) == PayloadAddr(p, i, o.sizes, j)
  {
    CarvedBlocks(p, i, o, size, j);
  }

  lemma SplitOrigin(p: Params, i: nat, o': Owned, n: nat, header: Cell,
                    mem: Memory, m1: Memory, m2: Memory, m3: Memory, m4: Memory, x: int)
    requires SplitWrites(p, i, o', n, header, mem, m1, m2, m3, m4) && x in m4 && m4[x].DataCell?
    ensures Has(mem, x, m4[x])
  {
  }

  predicate DataKept(mem: Memory, mem': Memory) {
    forall x :: x in mem && mem[x].DataCell? ==> Has(mem', x, mem[x])
  }

  /** With header room, carving keeps all client data, and keeps it inside payloads. */
  lemma CarveKeepsData(p: Params, mem: Memory, pages: seq<Owned>, i: nat, size: int)
    requires Sensible(p) && LaidOut(p, mem, pages) && DataInside(p, mem, pages)
    requires i < |pages| && 0 <= size && HasRoom(p, pages[i], size)
    ensures DataInside(p, AllocMem(p, mem, pages, i, size), Carved(pages, i, size))
    ensures DataKept(mem, AllocMem(p, mem, pages, i, size))
  {
    assert PageFits(p, pages[i]) by { assert HoldsPage(p, mem, pages, i); }
    hide AllocMem, LaidOut, HasRoom, PageFits, InSomePayload, SplitWrites;
    var m4, q := AllocMem(p, mem, pages, i, size), Carved(pages, i, size);
    var m1, m2, m3 := AllocIsSplit(p, mem, pages, i, size);
    forall x | x in mem && mem[x].DataCell?
      ensures Has(m4, x, mem[x]) && InSomePayload(p, q, x, mem[x].len)
    {
      CarveKeepsCell(p, mem, pages, i, size, x);
    }
    forall x | x in m4 && m4[x].DataCell? ensures InSomePayload(p, q, x, m4[x].len) {
      SplitOrigin(p, i, q[i], |pages[i].sizes|, ExpectedPage(p, q, i), mem, m1, m2, m3, m4, x);
    }
  }

  /** With header room, carving stays inside physical memory if the pages do. */
  lemma CarveKeepsInside(p: Params, mem: Memory, pages: seq<Owned>, i: nat, size: int)
    requires Sensible(p) && i < |pages| && PageFits(p, pages[i]) && 0 <= size && HasRoom(p, pages[i], size)
    requires Within(p, |pages|) && Inside(p, mem)
    ensures Inside(p, AllocMem(p, mem, pages, i, size))
  {
    hide AllocMem, Write, BlockAddr;
    var q, n := Carved(pages, i, size), |pages[i].sizes|;
    CarvedPages(p, pages, i, size);
    CarvedFits(p, pages[i], size);
    var m1, m2, m3 := AllocIsSplit(p, mem, pages, i, size);
    PageOrder(p, i, |pages|);
    if n != 0 {
      BlockInside(p, i, q[i], n - 1);
      WriteStaysInside(p, mem, BlockAddr(p, i, q[i].sizes, n - 1), ExpectedBlock(p, i, q[i], n - 1));
    }
    BlockInside(p, i, q[i], n);
    WriteStaysInside(p, m1, BlockAddr(p, i, q[i].sizes, n), ExpectedBlock(p, i, q[i], n));
    BlockInside(p, i, q[i], n + 1);
    WriteStaysInside(p, m2, BlockAddr(p, i, q[i].sizes, n + 1), ExpectedBlock(p, i, q[i], n + 1));
    WriteStaysInside(p, m3, PageAddr(p, i), ExpectedPage(p, q, i));
  }

  /** Allocating a block, of any size, leaves no two things overlapping. */
  lemma AllocKeepsSolid(p: Params, mem: Memory, pages: seq<Owned>, i: nat, size: int)
    requires i < |pages| && Solid(p, mem)
    ensures Solid(p, AllocMem(p, mem, pages, i, size))
  {
    hide Write, Solid, BlockAddr;
    var o := pages[i];
    var n := |o.sizes|;
    var b := BlockAddr(p, i, o.sizes, n);
    var page := ExpectedPage(p, pages, i).page;
    var page' := PageCell(page.(sizeOfAllocated := page.sizeOfAllocated + size + p.blockHeader));
    if Trailing(p, o) == size {
      var taken := BlockCell(Block(true, size, size + p.blockHeader, b, b + p.blockHeader, 0));
      WriteKeepsSolid(p, mem, b, taken);
      WriteKeepsSolid(p, Write(p, mem, b, taken), page.start, page');
    } else {
      var rest := b + p.blockHeader + size;
      var m1 := if n == 0 then mem else Write(p, mem, BlockAddr(p, i, o.sizes, n - 1), ExpectedBlock(p, i, o, n - 1));
      if n != 0 { WriteKeepsSolid(p, mem, BlockAddr(p, i, o.sizes, n - 1), ExpectedBlock(p, i, o, n - 1)); }
      var taken := BlockCell(Block(true, size, size + p.blockHeader, b, b + p.blockHeader, rest));
      var left := BlockCell(Block(false, 0, Trailing(p, o) - size - p.blockHeader, rest, rest + p.blockHeader, 0));
      WriteKeepsSolid(p, m1, b, taken);
      WriteKeepsSolid(p, Write(p, m1, b, taken), rest, left);
      WriteKeepsSolid(p, Write(p, Write(p, m1, b, taken), rest, left), page.start, page');
    }
  }

  lemma WriteStaysInside(p: Params, mem: Memory, a: int, c: Cell)
    requires Inside(p, mem) && a + Extent(p, c) <= p.base + p.size
    ensures Inside(p, Write(p, mem, a, c))
  {
  }
}
