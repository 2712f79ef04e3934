/** The allocator of memory_manager.c: loops over intrusive page and block lists kept in one simulated
    memory. `pages` is the layout that memory stands for. Two variables that the source leaves
    uninitialised are NULL here: `tmp_prev` in assign_page and `next` of a fresh page's first block. */
module MemoryManager {
  import opened Layout
  import opened Carving
  import opened Assigning
  import opened Overreach

  // ----- which page serves a request

  /** The page belongs to the requester, passes the fullness guard, and its trailing block is large enough. */
  predicate Takes(p: Params, o: Owned, request: Request, tid: int, size: int) {
    match request
    case Library => o.request == Library && 0 < Trailing(p, o) && size <= Trailing(p, o)
    case Client => o.request == Client && o.tid == tid && size < Trailing(p, o)
    case Unknown => false
  }

  /** The first page in list order, from page `i` on, that takes the request. */
  function FirstTaking(p: Params, pages: seq<Owned>, request: Request, tid: int, size: int, i: nat): (k: nat)
    requires i <= |pages|
    ensures i <= k <= |pages|
    ensures k < |pages| ==> Takes(p, pages[k], request, tid, size)
    ensures forall m :: i <= m < k ==> !Takes(p, pages[m], request, tid, size)
    decreases |pages| - i
  {
    if i == |pages| || Takes(p, pages[i], request, tid, size) then i
    else FirstTaking(p, pages, request, tid, size, i + 1)
  }

  /** A fresh page of the requester would take the request. */
  predicate FreshTakes(p: Params, request: Request, tid: int, size: int) {
    Takes(p, Owned(request, Tag(request, tid), []), request, tid, size)
  }

  /** The requester's tag on a new page: library pages carry tid -1. */
  function Tag(request: Request, tid: int): int {
    if request == Library then -1 else tid
  }

  /** The pages after a page has been added if none takes the request. */
  ghost function Provided(p: Params, pages: seq<Owned>, request: Request, tid: int, size: int): (q: seq<Owned>) {
    if FirstTaking(p, pages, request, tid, size, 0) < |pages| then pages else Grown(pages, request, Tag(request, tid))
  }

  /** Where the search for a page comes to an end: a page takes the request, or memory is left for a page
      that does. */
  predicate SearchEnds(p: Params, pages: seq<Owned>, request: Request, tid: int, size: int) {
    || FirstTaking(p, pages, request, tid, size, 0) < |pages|
    || (Remainder(p, |pages|) != 0 && FreshTakes(p, request, tid, size))
  }

  lemma ProvidedTakes(p: Params, pages: seq<Owned>, request: Request, tid: int, size: int)
    requires SearchEnds(p, pages, request, tid, size)
    ensures var q := Provided(p, pages, request, tid, size);
            var k := FirstTaking(p, pages, request, tid, size, 0);
            k < |q| && FirstTaking(p, q, request, tid, size, 0) == k && Provided(p, q, request, tid, size) == q
            && (k == |pages| ==> q[k] == Owned(request, Tag(request, tid), []))
  {
    var k := FirstTaking(p, pages, request, tid, size, 0);
    var q := Provided(p, pages, request, tid, size);
    if k == |pages| {
      assert forall m :: 0 <= m < k ==> q[m] == pages[m];
      assert Takes(p, q[k], request, tid, size);
      FirstTakingUnique(p, q, request, tid, size, k);
    }
  }

  /** What the headers in memory of page `i`, and of its last block, say of a request. */
  ghost predicate HeadersServe(p: Params, mem: Memory, pages: seq<Owned>, i: nat, request: Request, tid: int, size: int)
    requires i < |pages|
  {
    var a, b := PageAddr(p, i), BlockAddr(p, i, pages[i].sizes, |pages[i].sizes|);
    && a in mem && mem[a].PageCell? && b in mem && mem[b].BlockCell?
    && mem[a].page.request == request
    && match request
       case Client => mem[a].page.tid == tid && mem[a].page.sizeOfAllocated + size < p.pageSize
       case Library => size <= mem[b].block.totalSize
       case Unknown => false
  }

  /** Page `k` of the pages `q` serves the request: the first whose headers in memory allow it, or else one new page
      of the requester. A thread's payload is smaller than what the page had left, so that it never fits exactly. */
  ghost predicate ServedByFirst(p: Params, was: Memory, before: seq<Owned>, request: Request, tid: int, size: int,
                                q: seq<Owned>, k: nat)
  {
    && k < |q| && k <= |before| && q[k].request == request && (request == Client ==> q[k].tid == tid)
    && (forall i: nat :: i < k ==> !HeadersServe(p, was, before, i, request, tid, size))
    && (if k < |before| then q == before && HeadersServe(p, was, before, k, request, tid, size)
        else |q| == |before| + 1 && q[..|before|] == before && q[k].sizes == [] && (request == Library ==> q[k].tid == -1))
    && (if request == Client then size < Trailing(p, q[k]) else size <= Trailing(p, q[k]))
  }

  lemma HeadersTell(p: Params, mem: Memory, pages: seq<Owned>, i: nat, request: Request, tid: int, size: int)
    requires Sensible(p) && LaidOut(p, mem, pages) && i < |pages|
    ensures HeadersServe(p, mem, pages, i, request, tid, size) <==> Takes(p, pages[i], request, tid, size)
  {
    hide PageAddr;
    assert HoldsPage(p, mem, pages, i);
    assert Has(mem, BlockAddr(p, i, pages[i].sizes, |pages[i].sizes|), ExpectedBlock(p, i, pages[i], |pages[i].sizes|));
  }

  lemma FirstServes(p: Params, was: Memory, before: seq<Owned>, request: Request, tid: int, size: int)
    requires Sensible(p) && (before == [] || LaidOut(p, was, before)) && SearchEnds(p, before, request, tid, size)
    requires request != Unknown
    ensures ServedByFirst(p, was, before, request, tid, size,
                          Provided(p, before, request, tid, size), FirstTaking(p, before, request, tid, size, 0))
  {
    hide LaidOut, HeadersServe;
    ProvidedTakes(p, before, request, tid, size);
    forall i: nat | i < |before|
      ensures HeadersServe(p, was, before, i, request, tid, size) <==> Takes(p, before[i], request, tid, size)
    {
      HeadersTell(p, was, before, i, request, tid, size);
    }
  }

  /** The pages after `n` rounds that found none: each adds a page while any memory is unassigned. */
  ghost function Rounds(p: Params, pages: seq<Owned>, request: Request, tid: int, n: nat): seq<Owned> {
    if n == 0 then pages
    else
      var q := Rounds(p, pages, request, tid, n - 1);
      if Remainder(p, |q|) == 0 then q else Grown(q, request, Tag(request, tid))
  }

  ghost predicate Finds(p: Params, pages: seq<Owned>, request: Request, tid: int, size: int) {
    FirstTaking(p, pages, request, tid, size, 0) < |pages|
  }

  /** The search recurses without end exactly when no page takes the request and either no memory is left
      unassigned or a fresh page would not take it either. */
  lemma SearchEndsExactly(p: Params, pages: seq<Owned>, request: Request, tid: int, size: int)
    ensures (exists n: nat :: Finds(p, Rounds(p, pages, request, tid, n), request, tid, size))
            <==> SearchEnds(p, pages, request, tid, size)
  {
    if SearchEnds(p, pages, request, tid, size) {
      ProvidedTakes(p, pages, request, tid, size);
      var n: nat := if Finds(p, pages, request, tid, size) then 0 else 1;
      assert Rounds(p, pages, request, tid, 0) == pages;
      assert Finds(p, Rounds(p, pages, request, tid, n), request, tid, size);
    } else {
      forall n: nat ensures !Finds(p, Rounds(p, pages, request, tid, n), request, tid, size) {
        RoundsInVain(p, pages, request, tid, size, n);
      }
    }
  }

  lemma {:induction false} RoundsInVain(p: Params, pages: seq<Owned>, request: Request, tid: int, size: int, n: nat)
    requires !SearchEnds(p, pages, request, tid, size)
    ensures !SearchEnds(p, Rounds(p, pages, request, tid, n), request, tid, size)
    ensures !Finds(p, Rounds(p, pages, request, tid, n), request, tid, size)
  {
    if n != 0 {
      RoundsInVain(p, pages, request, tid, size, n - 1);
      var q, r := Rounds(p, pages, request, tid, n - 1), Rounds(p, pages, request, tid, n);
      assert forall m :: 0 <= m < |q| ==> r[m] == q[m];
    }
  }

  lemma FirstTakingUnique(p: Params, pages: seq<Owned>, request: Request, tid: int, size: int, k: nat)
    requires k < |pages| && Takes(p, pages[k], request, tid, size)
    requires forall m :: 0 <= m < k ==> !Takes(p, pages[m], request, tid, size)
    ensures FirstTaking(p, pages, request, tid, size, 0) == k
  {
  }

  lemma {:induction false} PageAddrPositive(p: Params, i: nat)
    requires Sensible(p)
    ensures 0 < PageAddr(p, i)
  {
    if i != 0 { PageAddrPositive(p, i - 1); }
  }

  class Allocator {
    const p: Params
    var mem: Memory
    var pageListHead: int
    var initialised: bool
    ghost var pages: seq<Owned>

    ghost predicate Valid()
      reads this
    {
      && Sensible(p) && Solid(p, mem)
      && (if initialised
          then && pageListHead == PageAddr(p, 0) && LaidOut(p, mem, pages) && DataInside(p, mem, pages)
               && (Within(p, |pages|) ==> Inside(p, mem))
          else pages == [] && mem == map[])
    }

    constructor (p: Params)
      requires Sensible(p)
      ensures Valid() && this.p == p && !initialised && pages == []
    {
      this.p := p;
      mem := map[];
      pageListHead := 0;
      initialised := false;
      pages := [];
    }

    /** init_memory_metadata: one unassigned page covers all of memory after the metadata. */
    method InitMemoryMetadata()
      requires Valid() && !initialised
      modifies this
      ensures Valid() && initialised && pages == []
    {
      var start := p.base + p.metaSize;
      var pg := Page(false, Unknown, -1, p.pageHeader, start, p.base + p.size - 1, 0, 0);
      mem := Write(p, mem, start, PageCell(pg));
      pageListHead := start;
      initialised := true;
      WriteKeepsSolid(p, map[], start, PageCell(pg));
      WriteHas(p, map[], start, PageCell(pg));
    }

    /** Client bytes stored inside a payload that was handed out. */
    method Store(x: int, len: int, value: int)
      requires Valid() && initialised && InSomePayload(p, pages, x, len)
      modifies this`mem
      ensures Valid() && Has(mem, x, DataCell(len, value))
    {
      ghost var was := mem;
      mem := Write(p, mem, x, DataCell(len, value));
      StoreKeepsLayout(p, was, pages, x, len, value);
      WriteKeepsSolid(p, was, x, DataCell(len, value));
      if Within(p, |pages|) { StoreKeepsInside(p, was, pages, x, len, value); }
    }

    /** assign_page: the first unassigned page is used whole when it is one page long, otherwise split. */
    method AssignPage(request: Request, tid: int)
      requires Valid() && initialised
      modifies this`mem, this`pages
      ensures Remainder(p, |old(pages)|) == 0 ==> Valid() && mem == old(mem) && pages == old(pages)
      ensures Remainder(p, |old(pages)|) != 0 ==> mem == AssignMem(p, old(mem), old(pages), request, tid)
      ensures Remainder(p, |old(pages)|) != 0 ==> Valid() && pages == Grown(old(pages), request, tid) && DataKept(old(mem), mem)
    {
      hide Write, DataInside, DataKept, Has, AssignMem;
      var tmpCurr := pageListHead;
      var tmpPrev := 0;
      ghost var i := 0;
      PageAddrPositive(p, 0);
      while tmpCurr != 0
        invariant 0 <= i <= |pages| && mem == old(mem) && pages == old(pages)
        invariant tmpCurr == PageAddr(p, i) || (tmpCurr == 0 && i == |pages| && Remainder(p, i) == 0)
        invariant tmpPrev == if i == 0 then 0 else PageAddr(p, i - 1)
        invariant i == |pages| && Remainder(p, i) == 0 ==> tmpCurr == 0
        decreases |pages| - i, if tmpCurr == 0 then 0 else 1
      {
        PageAt(i);
        var pg := mem[tmpCurr].page;
        if !pg.inUse {
          UsePage(pg, tmpPrev, request, tid);
          return;
        }
        tmpPrev := tmpCurr;
        tmpCurr := pg.next;
        i := i + 1;
      }
      PageAddrPositive(p, i);
    }

    /** The header that the walk finds at page `i`. */
    lemma PageAt(i: nat)
      requires Valid() && initialised && i <= |pages| && (i == |pages| ==> Remainder(p, i) != 0)
      ensures PageAddr(p, i) in mem && 0 < PageAddr(p, i)
      ensures mem[PageAddr(p, i)] == if i < |pages| then ExpectedPage(p, pages, i) else ExpectedRest(p, i)
    {
      PageAddrPositive(p, i);
      if i < |pages| { assert HoldsPage(p, mem, pages, i); }
    }

    /** Lines 107-192. */
    method UsePage(pg: Page, tmpPrev: int, request: Request, tid: int)
      requires Valid() && initialised && Remainder(p, |pages|) != 0
      requires PageCell(pg) == ExpectedRest(p, |pages|)
      requires tmpPrev == if |pages| == 0 then 0 else PageAddr(p, |pages| - 1)
      modifies this`mem, this`pages
      ensures mem == AssignMem(p, old(mem), old(pages), request, tid)
      ensures Valid() && pages == Grown(old(pages), request, tid) && DataKept(old(mem), mem)
    {
      hide Inside, LaidOut, DataInside, DataKept, AssignMem, Solid;
      AssignKeepsSolid(p, mem, pages, request, tid);
      AssignKeepsLayout(p, mem, pages, request, tid);
      AssignKeepsData(p, mem, pages, request, tid);
      if Within(p, |pages| + 1) { AssignInsideExactly(p, mem, pages, request, tid); }
      WriteHeaders(pg, tmpPrev, request, tid);
      pages := Grown(pages, request, tid);
    }

    /** The three or four headers that the new page needs. */
    method WriteHeaders(pg: Page, tmpPrev: int, request: Request, tid: int)
      requires Valid() && initialised && Remainder(p, |pages|) != 0
      requires PageCell(pg) == ExpectedRest(p, |pages|)
      requires tmpPrev == if |pages| == 0 then 0 else PageAddr(p, |pages| - 1)
      modifies this`mem
      ensures mem == AssignMem(p, old(mem), pages, request, tid)
    {
      hide Write, DataInside, LaidOut, Has;
      ghost var k, was, q := |pages|, mem, Grown(pages, request, tid);
      GrownPages(p, pages, request, tid);
      PageAddrPositive(p, if k == 0 then 0 else k - 1);
      var start := pg.start;
      var blockAddress := start + p.pageHeader;
      var blk := Block(false, 0, p.pageSize - p.pageHeader, blockAddress, blockAddress + p.blockHeader, 0);
      var assign := Page(true, request, tid, p.pageHeader, start, start + p.pageSize - 1, blockAddress, pg.next);
      assert BlockCell(blk) == ExpectedBlock(p, k, q[k], 0) && blockAddress == BlockAddr(p, k, [], 0);
      if k != 0 { LastHeaderStands(was, blockAddress, blk); }
      mem := Write(p, mem, blockAddress, BlockCell(blk));
      if pg.end - pg.start + 1 == p.pageSize {
        assert PageCell(assign) == ExpectedPage(p, q, k);
        mem := Write(p, mem, start, PageCell(assign));
      } else {
        var rest := Page(false, Unknown, -1, p.pageHeader, start + p.pageSize, pg.end, 0, pg.next);
        assert PageCell(rest) == ExpectedRest(p, k + 1);
        if tmpPrev != 0 {
          LinkPrevious(tmpPrev, start, if k == 0 then 0 else k - 1);
        }
        assign := assign.(next := rest.start);
        assert PageCell(assign) == ExpectedPage(p, q, k);
        mem := Write(p, mem, start, PageCell(assign));
        mem := Write(p, mem, rest.start, PageCell(rest));
      }
    }

    /** The previous page's header is copied out, pointed at the new page and copied back. */
    method LinkPrevious(tmpPrev: int, start: int, ghost i: nat)
      requires i + 1 == |pages| && tmpPrev == PageAddr(p, i) && start == PageAddr(p, i + 1)
      requires tmpPrev in mem && mem[tmpPrev] == ExpectedPage(p, pages, i) && Remainder(p, i + 1) != 0
      modifies this`mem
      ensures mem == Write(p, old(mem), PageAddr(p, i), ExpectedPage(p, pages, i))
    {
      hide Write;
      var prev := mem[tmpPrev].page;
      prev := prev.(next := start);
      mem := Write(p, mem, prev.start, PageCell(prev));
    }

    lemma LastHeaderStands(was: Memory, a: int, blk: Block)
      requires Sensible(p) && LaidOut(p, was, pages) && pages != [] && PageAddr(p, |pages|) <= a
      ensures PageAddr(p, |pages| - 1) in Write(p, was, a, BlockCell(blk))
      ensures Write(p, was, a, BlockCell(blk))[PageAddr(p, |pages| - 1)] == ExpectedPage(p, pages, |pages| - 1)
    {
      assert HoldsPage(p, was, pages, |pages| - 1);
      PageOrder(p, |pages| - 1, |pages|);
      Survives(p, was, PageAddr(p, |pages| - 1), ExpectedPage(p, pages, |pages| - 1), a, BlockCell(blk));
    }

    // ----- blocks

    /** What the walk over page `i` finds at its `j`-th block. */
    lemma BlockAt(i: nat, j: nat)
      requires Valid() && initialised && i < |pages| && j <= |pages[i].sizes|
      ensures BlockAddr(p, i, pages[i].sizes, j) in mem && 0 < BlockAddr(p, i, pages[i].sizes, j)
      ensures mem[BlockAddr(p, i, pages[i].sizes, j)] == ExpectedBlock(p, i, pages[i], j)
    {
      hide BlockAddr;
      assert HoldsPage(p, mem, pages, i);
      PageAddrPositive(p, i);
      BlockInside(p, i, pages[i], j);
    }

    /** What allocate_block leaves behind on page `i` of the pages `before`: with header room one more block.
        Without it, or for a negative size, memory is described by the cut-back list or by nothing. */
    ghost predicate Allocated(was: Memory, before: seq<Owned>, i: nat, size: int)
      requires i < |before|
      reads this
    {
      if 0 <= size && HasRoom(p, before[i], size)
      then Valid() && initialised && pages == Carved(before, i, size) && DataKept(was, mem)
      else && (!Describable(p, before[i], size) ==> Broken(p, mem))
           && forall j: nat :: LandsOn(p, before[i], size, j) && size < 0 ==> LaidOut(p, mem, CutBack(before, i, j))
    }

    /** allocate_block on page `i`, for any size. Null exactly when the trailing block is smaller than the
        payload; otherwise the payload of the next block, with memory as AllocMem says. */
    method AllocateBlock(size: int, pageAddress: int, ghost i: nat) returns (r: int)
      requires Valid() && initialised && i < |pages| && pageAddress == PageAddr(p, i)
      modifies this`mem, this`pages
      ensures r == 0 <==> Trailing(p, old(pages)[i]) < size
      ensures r == 0 ==> mem == old(mem) && pages == old(pages)
      ensures r != 0 ==> r == PayloadAddr(p, i, old(pages)[i].sizes, |old(pages)[i].sizes|)
                         && mem == AllocMem(p, old(mem), old(pages), i, size)
                         && Allocated(old(mem), old(pages), i, size)
    {
      hide Write, DataInside, LaidOut, DataKept, AllocMem, Broken, BlockAddr, Has;
      PageAt(i);
      ghost var o, n, was := pages[i], |pages[i].sizes|, mem;
      var currentPage := mem[pageAddress].page;
      var tmpCurr := currentPage.blockHead;
      var tmpPrev := 0;
      ghost var j := 0;
      BlockListStart(i);
      while tmpCurr != 0
        invariant 0 <= j <= n + 1 && mem == was && pages == old(pages)
        invariant tmpCurr == if j <= n then BlockAddr(p, i, o.sizes, j) else 0
        invariant tmpPrev == if j == 0 then 0 else BlockAddr(p, i, o.sizes, j - 1)
        invariant j == n + 1 ==> Trailing(p, o) < size
        decreases n + 1 - j
      {
        BlockAt(i, j);
        var blk := mem[tmpCurr].block;
        if !blk.taken && blk.totalSize >= size {
          r := UseBlock(currentPage, blk, tmpPrev, size, i);
          return;
        }
        tmpPrev := tmpCurr;
        tmpCurr := blk.next;
        if j < n { BlockAt(i, j + 1); }
        j := j + 1;
      }
      if j <= n { BlockAt(i, j); }
      r := 0;
    }

    lemma BlockListStart(i: nat)
      requires Valid() && initialised && i < |pages|
      ensures ExpectedPage(p, pages, i).page.blockHead == BlockAddr(p, i, pages[i].sizes, 0)
    {
    }

    /** Lines 253-307, on the trailing block. */
    method UseBlock(currentPage: Page, blk: Block, tmpPrev: int, size: int, ghost i: nat) returns (r: int)
      requires Valid() && initialised && i < |pages| && size <= Trailing(p, pages[i])
      requires PageCell(currentPage) == ExpectedPage(p, pages, i)
      requires BlockCell(blk) == ExpectedBlock(p, i, pages[i], |pages[i].sizes|)
      requires tmpPrev == if |pages[i].sizes| == 0 then 0 else BlockAddr(p, i, pages[i].sizes, |pages[i].sizes| - 1)
      modifies this`mem, this`pages
      ensures r != 0 && r == PayloadAddr(p, i, old(pages)[i].sizes, |old(pages)[i].sizes|)
      ensures mem == AllocMem(p, old(mem), old(pages), i, size)
      ensures Allocated(old(mem), old(pages), i, size)
    {
      hide Write, DataInside, LaidOut, DataKept, AllocMem, Broken, BlockAddr, Has, HasRoom, Describable;
      ghost var was := mem;
      r := WriteBlocks(currentPage, blk, tmpPrev, size, i);
      BlockAtBefore(was, i);
      if 0 <= size && HasRoom(p, pages[i], size) {
        CarveKeepsLayout(p, was, pages, i, size);
        AllocKeepsSolid(p, was, pages, i, size);
        CarveKeepsData(p, was, pages, i, size);
        if Within(p, |pages|) { CarveKeepsInside(p, was, pages, i, size) by { FitsAt(p, was, pages, i); } }
        pages := Carved(pages, i, size);
      } else {
        if !Describable(p, pages[i], size) { CarveBreaks(p, was, pages, i, size); }
        forall j: nat | LandsOn(p, pages[i], size, j) && size < 0 ensures LaidOut(p, mem, CutBack(pages, i, j)) {
          CutKeepsLayout(p, was, pages, i, size, j);
        }
      }
    }

    lemma BlockAtBefore(was: Memory, i: nat)
      requires Sensible(p) && LaidOut(p, was, pages) && i < |pages|
      ensures 0 < PayloadAddr(p, i, pages[i].sizes, |pages[i].sizes|)
    {
      assert HoldsPage(p, was, pages, i);
      PageAddrPositive(p, i);
      UsedNat(p, pages[i].sizes, |pages[i].sizes|);
    }

    method WriteBlocks(currentPage: Page, blk: Block, tmpPrev: int, size: int, ghost i: nat) returns (r: int)
      requires Valid() && initialised && i < |pages|
      requires PageCell(currentPage) == ExpectedPage(p, pages, i)
      requires BlockCell(blk) == ExpectedBlock(p, i, pages[i], |pages[i].sizes|)
      requires tmpPrev == if |pages[i].sizes| == 0 then 0 else BlockAddr(p, i, pages[i].sizes, |pages[i].sizes| - 1)
      modifies this`mem
      ensures r == PayloadAddr(p, i, pages[i].sizes, |pages[i].sizes|)
      ensures mem == AllocMem(p, old(mem), pages, i, size)
    {
      hide Write, DataInside, LaidOut, Has, BlockAddr;
      ghost var o, n := pages[i], |pages[i].sizes|;
      var alloc := Block(true, size, size + p.blockHeader, blk.address, blk.address + p.blockHeader, blk.next);
      var currentPage' := currentPage.(sizeOfAllocated := currentPage.sizeOfAllocated + alloc.totalSize);
      if blk.totalSize == size {
        mem := Write(p, mem, alloc.address, BlockCell(alloc));
        mem := Write(p, mem, currentPage'.start, PageCell(currentPage'));
      } else {
        var rest := alloc.address + alloc.totalSize;
        var unalloc := Block(false, 0, blk.totalSize - alloc.totalSize, rest, rest + p.blockHeader, blk.next);
        alloc := alloc.(next := rest);
        if n != 0 { BlockAt(i, n - 1); }
        if tmpPrev != 0 {
          var prev := mem[tmpPrev].block;
          prev := prev.(next := alloc.address);
          mem := Write(p, mem, prev.address, BlockCell(prev));
        }
        mem := Write(p, mem, alloc.address, BlockCell(alloc));
        mem := Write(p, mem, unalloc.address, BlockCell(unalloc));
        mem := Write(p, mem, currentPage'.start, PageCell(currentPage'));
      }
      r := alloc.dataAddress;
    }

    // ----- requests

    /** Where a request is served, and what it leaves behind. The pages are those before the call. */
    ghost predicate Served(was: Memory, before: seq<Owned>, request: Request, tid: int, size: int, r: int)
      reads this
    {
      var q := Provided(p, before, request, tid, size);
      var k := FirstTaking(p, before, request, tid, size, 0);
      && ServedByFirst(p, was, before, request, tid, size, q, k)
      && r != 0 && r == PayloadAddr(p, k, q[k].sizes, |q[k].sizes|)
      && Allocated(was, q, k, size)
    }

    /** allocate_for_thread: the first page of the calling thread that takes the request, else a new page and
        one more try. */
    method AllocateForThread(size: int, currTid: int) returns (r: int)
      requires Valid() && initialised && SearchEnds(p, pages, Client, currTid, size)
      modifies this`mem, this`pages
      ensures Served(old(mem), old(pages), Client, currTid, size, r)
      decreases if FirstTaking(p, pages, Client, currTid, size, 0) < |pages| then 0 else 1
    {
      hide Write, DataInside, LaidOut, DataKept, AllocMem, Broken, BlockAddr, PayloadAddr, ServedByFirst, Solid;
      ProvidedTakes(p, pages, Client, currTid, size);
      FirstServes(p, mem, pages, Client, currTid, size);
      ghost var k := FirstTaking(p, pages, Client, currTid, size, 0);
      var tmp := pageListHead;
      ghost var i := 0;
      PageAddrPositive(p, 0);
      while tmp != 0
        invariant 0 <= i <= |pages| + 1 && i <= k + 1 && mem == old(mem) && pages == old(pages)
        invariant i <= |pages| ==> tmp == PageAddr(p, i) || (tmp == 0 && i == |pages|)
        invariant i == |pages| && Remainder(p, i) == 0 ==> tmp == 0
        invariant i == |pages| + 1 ==> tmp == 0
        invariant i <= k || k == |pages|
        decreases |pages| + 1 - i, if tmp == 0 then 0 else 1
      {
        PageAt(i);
        var pg := mem[tmp].page;
        if pg.request == Client && pg.tid == currTid {
          if pg.sizeOfAllocated + size >= p.pageSize {
            tmp := pg.next;
            i := i + 1;
            continue;
          }
          r := AllocateBlock(size, pg.start, i);
          if r != 0 {
            return;
          }
        }
        tmp := pg.next;
        i := i + 1;
      }
      PageAddrPositive(p, i);
      ghost var was := mem;
      AssignPage(Client, currTid);
      ghost var mid := mem;
      r := AllocateForThread(size, currTid);
      DataKeptTwice(was, mid, mem);
    }

    /** allocate_for_scheduler: the same search among the library's pages. */
    method AllocateForScheduler(size: int) returns (r: int)
      requires Valid() && initialised && SearchEnds(p, pages, Library, -1, size)
      modifies this`mem, this`pages
      ensures Served(old(mem), old(pages), Library, -1, size, r)
      decreases if FirstTaking(p, pages, Library, -1, size, 0) < |pages| then 0 else 1
    {
      hide Write, DataInside, LaidOut, DataKept, AllocMem, Broken, BlockAddr, PayloadAddr, ServedByFirst, Solid;
      ProvidedTakes(p, pages, Library, -1, size);
      FirstServes(p, mem, pages, Library, -1, size);
      ghost var k := FirstTaking(p, pages, Library, -1, size, 0);
      var tmp := pageListHead;
      ghost var i := 0;
      PageAddrPositive(p, 0);
      while tmp != 0
        invariant 0 <= i <= |pages| + 1 && i <= k + 1 && mem == old(mem) && pages == old(pages)
        invariant i <= |pages| ==> tmp == PageAddr(p, i) || (tmp == 0 && i == |pages|)
        invariant i == |pages| && Remainder(p, i) == 0 ==> tmp == 0
        invariant i == |pages| + 1 ==> tmp == 0
        invariant i <= k || k == |pages|
        decreases |pages| + 1 - i, if tmp == 0 then 0 else 1
      {
        PageAt(i);
        var pg := mem[tmp].page;
        if pg.request == Library {
          if pg.sizeOfAllocated >= p.pageSize {
            tmp := pg.next;
            i := i + 1;
            continue;
          }
          r := AllocateBlock(size, pg.start, i);
          if r != 0 {
            return;
          }
        }
        tmp := pg.next;
        i := i + 1;
      }
      PageAddrPositive(p, i);
      ghost var was := mem;
      AssignPage(Library, -1);
      ghost var mid := mem;
      r := AllocateForScheduler(size);
      DataKeptTwice(was, mid, mem);
    }

    /** my_allocate. The process exits on a request that is neither the library's nor a thread's. */
    method MyAllocate(size: int, request: Request, currTid: int) returns (r: int, exits: bool)
      requires Valid() && (request != Unknown ==> SearchEnds(p, pages, request, currTid, size))
      modifies this
      ensures exits <==> request == Unknown
      ensures exits ==> r == 0 && Valid() && initialised && pages == old(pages)
      ensures !exits ==> Served(old(mem), old(pages), request, currTid, size, r)
    {
      hide Write, DataInside, LaidOut, AllocMem, Broken, BlockAddr, PayloadAddr, ServedByFirst, Solid;
      if request != Unknown { FirstServes(p, mem, pages, request, currTid, size); }
      r, exits := 0, false;
      ghost var was := mem;
      if !initialised {
        InitMemoryMetadata();
      }
      ghost var mid := mem;
      if request == Library {
        LibraryIgnoresTid(p, pages, currTid, -1, size, 0);
        r := AllocateForScheduler(size);
      } else if request == Client {
        r := AllocateForThread(size, currTid);
      } else {
        exits := true;
      }
      DataKeptTwice(was, mid, mem);
    }
  }

  lemma FitsAt(p: Params, mem: Memory, pages: seq<Owned>, i: nat)
    requires LaidOut(p, mem, pages) && i < |pages|
    ensures PageFits(p, pages[i])
  {
    assert HoldsPage(p, mem, pages, i);
  }

  /** A store inside a payload stays inside physical memory if the pages do. */
  lemma StoreKeepsInside(p: Params, mem: Memory, pages: seq<Owned>, x: int, len: int, value: int)
    requires Sensible(p) && LaidOut(p, mem, pages) && InSomePayload(p, pages, x, len)
    requires Within(p, |pages|) && Inside(p, mem)
    ensures Inside(p, Write(p, mem, x, DataCell(len, value)))
  {
    var i, j :| 0 <= i < |pages| && 0 <= j < |pages[i].sizes| && InPayload(p, i, pages[i].sizes, j, x, len);
    FitsAt(p, mem, pages, i);
    PayloadPlace(p, i, pages[i], j, x, len);
    PageOrder(p, i, |pages|);
    WriteStaysInside(p, mem, x, DataCell(len, value));
  }

  lemma DataKeptTwice(a: Memory, b: Memory, c: Memory)
    ensures DataKept(a, b) && DataKept(b, c) ==> DataKept(a, c)
  {
  }

  lemma LibraryIgnoresTid(p: Params, pages: seq<Owned>, a: int, b: int, size: int, i: nat)
    requires i <= |pages|
    ensures FirstTaking(p, pages, Library, a, size, i) == FirstTaking(p, pages, Library, b, size, i)
    decreases |pages| - i
  {
  }

  /** Storing inside a payload touches no header and stays inside payloads. */
  lemma StoreKeepsLayout(p: Params, mem: Memory, pages: seq<Owned>, x: int, len: int, value: int)
    requires Sensible(p) && LaidOut(p, mem, pages) && DataInside(p, mem, pages) && InSomePayload(p, pages, x, len)
    ensures LaidOut(p, Write(p, mem, x, DataCell(len, value)), pages)
    ensures DataInside(p, Write(p, mem, x, DataCell(len, value)), pages)
    ensures Has(Write(p, mem, x, DataCell(len, value)), x, DataCell(len, value))
  {
    hide Write, BlockAddr, PayloadAddr;
    var c := DataCell(len, value);
    var i, j :| 0 <= i < |pages| && 0 <= j < |pages[i].sizes| && InPayload(p, i, pages[i].sizes, j, x, len);
    var o := pages[i];
    assert HoldsPage(p, mem, pages, i);
    PayloadPlace(p, i, o, j, x, len);
    WriteHas(p, mem, x, c);
    PageOrder(p, i, |pages|);
    forall k | 0 <= k < |pages| ensures HoldsPage(p, Write(p, mem, x, c), pages, k) {
      assert HoldsPage(p, mem, pages, k);
      if k == i {
        Survives(p, mem, PageAddr(p, i), ExpectedPage(p, pages, i), x, c);
        forall b | 0 <= b <= |o.sizes| ensures Has(Write(p, mem, x, c), BlockAddr(p, i, o.sizes, b), ExpectedBlock(p, i, o, b)) {
          Survives(p, mem, BlockAddr(p, i, o.sizes, b), ExpectedBlock(p, i, o, b), x, c);
        }
      } else {
        if i < k { PageOrder(p, i, k); } else { PageOrder(p, k, i); }
        KeepsPage(p, mem, pages, k, x, c);
      }
    }
    KeepsRest(p, mem, |pages|, x, c);
  }
}
