/** Whole histories of allocations: tiling, disjointness, isolation of owners, and capacity. */
module Histories {
  import opened Layout
  import opened Carving
  import opened Assigning
  import opened Overreach
  import opened MemoryManager

  // ----- tiling, read off the headers in memory

  /** The block list from address `a` on: headers and payloads follow one another without a gap, all of them
      ALLOCATED but the last, which is UNALLOCATED, ends the list and ends at `end`. */
  ghost predicate BlocksTile(p: Params, mem: Memory, a: int, end: int)
    decreases end - a
  {
    && a in mem && mem[a].BlockCell?
    && var b := mem[a].block;
       && b.address == a && b.dataAddress == a + p.blockHeader
       && 0 < b.totalSize && a + b.totalSize <= end
       && (if b.taken
           then b.totalSize == p.blockHeader + b.dataSize && b.next == a + b.totalSize && BlocksTile(p, mem, b.next, end)
           else b.next == 0 && a + b.totalSize == end)
  }

  /** The page list from address `a` on: assigned pages of exactly one page size, tiled by their blocks, then
      at most one unassigned page, together reaching exactly to the end of memory. */
  ghost predicate PagesTile(p: Params, mem: Memory, a: int)
    requires 0 < p.pageSize
    decreases p.base + p.size - a
  {
    && a in mem && mem[a].PageCell?
    && var g := mem[a].page;
       var past := p.base + p.size;
       && g.start == a
       && (if g.inUse
           then && g.end == a + p.pageSize - 1 && g.end < past
                && g.blockHead == a + p.pageHeader && BlocksTile(p, mem, g.blockHead, g.end + 1)
                && (if g.end + 1 == past then g.next == 0 else g.next == g.end + 1 && PagesTile(p, mem, g.next))
           else g.end + 1 == past && g.next == 0 && a + p.pageHeader <= past)
  }

  lemma {:induction false} BlocksTiled(p: Params, mem: Memory, pages: seq<Owned>, i: nat, j: nat)
    requires Sensible(p) && i < |pages| && HoldsPage(p, mem, pages, i) && j <= |pages[i].sizes|
    ensures BlocksTile(p, mem, BlockAddr(p, i, pages[i].sizes, j), PageAddr(p, i) + p.pageSize)
    decreases |pages[i].sizes| - j
  {
    var o := pages[i];
    assert Has(mem, BlockAddr(p, i, o.sizes, j), ExpectedBlock(p, i, o, j));
    BlockInside(p, i, o, j);
    if j < |o.sizes| {
      BlocksTiled(p, mem, pages, i, j + 1);
    }
  }

  lemma PageHeld(p: Params, mem: Memory, pages: seq<Owned>, i: nat)
    requires Sensible(p) && LaidOut(p, mem, pages) && i < |pages|
    ensures Has(mem, PageAddr(p, i), ExpectedPage(p, pages, i))
    ensures BlocksTile(p, mem, PageAddr(p, i) + p.pageHeader, PageAddr(p, i) + p.pageSize)
  {
    assert HoldsPage(p, mem, pages, i);
    BlocksTiled(p, mem, pages, i, 0);
  }

  lemma {:induction false} PagesTiled(p: Params, mem: Memory, pages: seq<Owned>, i: nat)
    requires Sensible(p) && LaidOut(p, mem, pages) && i <= |pages| && (i == |pages| ==> Remainder(p, i) != 0)
    requires Within(p, |pages|)
    ensures PagesTile(p, mem, PageAddr(p, i))
    decreases |pages| - i
  {
    if i < |pages| {
      hide BlocksTile, Used;
      PageHeld(p, mem, pages, i);
      PageOrder(p, i, |pages|);
      if i + 1 < |pages| {
        PageOrder(p, i + 1, |pages|);
        PagesTiled(p, mem, pages, i + 1);
      } else if Remainder(p, i + 1) != 0 {
        PagesTiled(p, mem, pages, i + 1);
      }
    }
  }

  /** A page's count of allocated bytes and its trailing block always make up the page. */
  lemma CountPlusTrailing(p: Params, mem: Memory, pages: seq<Owned>, i: nat)
    requires Sensible(p) && LaidOut(p, mem, pages) && i < |pages|
    ensures PageAddr(p, i) in mem && mem[PageAddr(p, i)].PageCell?
    ensures var t := BlockAddr(p, i, pages[i].sizes, |pages[i].sizes|);
            && t in mem && mem[t].BlockCell? && !mem[t].block.taken
            && mem[PageAddr(p, i)].page.sizeOfAllocated + mem[t].block.totalSize == p.pageSize
  {
    assert HoldsPage(p, mem, pages, i);
    assert Has(mem, BlockAddr(p, i, pages[i].sizes, |pages[i].sizes|), ExpectedBlock(p, i, pages[i], |pages[i].sizes|));
  }

  /** So the page that serves a thread's request never meets the exact-fit branch of allocate_block. */
  lemma ThreadNeverFitsExactly(p: Params, mem: Memory, pages: seq<Owned>, tid: int, size: int)
    requires Sensible(p) && LaidOut(p, mem, pages) && SearchEnds(p, pages, Client, tid, size)
    ensures var q, k := Provided(p, pages, Client, tid, size), FirstTaking(p, pages, Client, tid, size, 0);
            k < |q| && size < Trailing(p, q[k])
    ensures var k := FirstTaking(p, pages, Client, tid, size, 0);
            k < |pages| ==>
              && PageAddr(p, k) in mem && mem[PageAddr(p, k)].PageCell?
              && mem[PageAddr(p, k)].page.sizeOfAllocated + size < p.pageSize
              && var t := BlockAddr(p, k, pages[k].sizes, |pages[k].sizes|);
                 t in mem && mem[t].BlockCell? && mem[t].block.totalSize != size
  {
    FirstServes(p, mem, pages, Client, tid, size);
    var k := FirstTaking(p, pages, Client, tid, size, 0);
    if k < |pages| { CountPlusTrailing(p, mem, pages, k); }
  }

  /** The library has no such guard: a request as large as a page's trailing block is served there, and leaves memory
      that no layout describes. */
  lemma LibraryFitsExactly(p: Params, mem: Memory, pages: seq<Owned>, i: nat)
    requires Sensible(p) && LaidOut(p, mem, pages) && i < |pages| && pages[i].request == Library
    ensures HeadersServe(p, mem, pages, i, Library, -1, Trailing(p, pages[i]))
    ensures Broken(p, AllocMem(p, mem, pages, i, Trailing(p, pages[i])))
  {
    assert HoldsPage(p, mem, pages, i);
    HeadersTell(p, mem, pages, i, Library, -1, Trailing(p, pages[i]));
    CarveBreaks(p, mem, pages, i, Trailing(p, pages[i]));
  }

  /** The header in memory of every page names its owner. */
  lemma HeaderNamesOwner(p: Params, mem: Memory, pages: seq<Owned>, i: nat)
    requires Sensible(p) && LaidOut(p, mem, pages) && i < |pages|
    ensures PageAddr(p, i) in mem && mem[PageAddr(p, i)].PageCell?
    ensures mem[PageAddr(p, i)].page.request == pages[i].request && mem[PageAddr(p, i)].page.tid == pages[i].tid
  {
    assert HoldsPage(p, mem, pages, i);
  }

  /** The header room is not what the code compares: with pages of 4096 bytes, a metadata record of 32 and
      headers of 64 and 40 bytes, the first request of the main thread, for 4031 bytes, passes the guard and is
      split off a block of 4032, and memory is no longer described by any layout. */
  method GuardIgnoresHeaders() returns (a: Allocator, r: int)
    ensures a.p == Usual()
    ensures r != 0 && Broken(a.p, a.mem)
  {
    a := new Allocator(Usual());
    assert !HasRoom(a.p, Owned(Client, 0, []), 4031);
    assert Takes(a.p, Owned(Client, 0, []), Client, 0, 4031);
    var exits;
    r, exits := a.MyAllocate(4031, Client, 0);
  }

  // ----- capacity

  lemma PagesInsideMemory(p: Params, i: nat, k: nat)
    requires Sensible(p) && i < k && Within(p, k)
    ensures p.base <= PageAddr(p, i) && PageAddr(p, i) + p.pageSize <= p.base + p.size
  {
    PageOrder(p, i, k);
    if 0 < i { PageOrder(p, 0, i); }
  }

  /** The page size divides the memory size, the metadata is smaller than a page, and a page header fits in
      what the metadata leaves of a page. */
  predicate WholePages(p: Params, count: nat) {
    Sensible(p) && p.size == count * p.pageSize && p.metaSize + p.pageHeader <= p.pageSize
  }

  /** The capacity: physical memory holds `k` pages exactly up to (memory size - metadata size) / page size.
      The code does not notice: memory always looks as if a part of it was unassigned, and never as if that
      was exactly one page. */
  lemma Capacity(p: Params, count: nat, k: nat)
    requires WholePages(p, count)
    ensures (p.size - p.metaSize) / p.pageSize == count - 1
    ensures Within(p, k) <==> k <= (p.size - p.metaSize) / p.pageSize
    ensures Remainder(p, k) != p.pageSize && Remainder(p, k) != 0
  {
    hide Remainder;
    RemainderClosed(p, count, k);
    DivideBelow(count - 1, p.pageSize, p.pageSize - p.metaSize);
    MultipleBounds(count - k, p.pageSize);
  }

  lemma RemainderClosed(p: Params, count: nat, k: nat)
    requires WholePages(p, count)
    ensures Remainder(p, k) == (count - k) * p.pageSize - p.metaSize
    ensures p.size - p.metaSize == (count - 1) * p.pageSize + (p.pageSize - p.metaSize)
  {
    PageAddrClosed(p, k);
    assert count * p.pageSize - k * p.pageSize == (count - k) * p.pageSize;
    assert (count - 1) * p.pageSize + p.pageSize == count * p.pageSize;
  }

  lemma DivideBelow(q: int, n: int, r: int)
    requires 0 <= r < n
    ensures (q * n + r) / n == q
  {
    var d, m := (q * n + r) / n, (q * n + r) % n;
    assert q * n + r == n * d + m;
    assert (q - d) * n == m - r;
    MultipleBounds(q - d, n);
    MultipleBounds(d - q, n);
    assert (d - q) * n == r - m;
  }

  lemma MultipleBounds(d: int, n: int)
    requires 0 < n
    ensures d <= 1 ==> d * n <= n
    ensures 1 <= d ==> n <= d * n
    ensures 2 <= d ==> 2 * n <= d * n
    ensures d <= 0 ==> d * n <= 0
    ensures d == 1 ==> d * n == n
  {
  }

  // ----- histories

  /** A call of my_allocate: who asks, and for how much. */
  datatype Ask = Ask(request: Request, tid: int, size: int)

  /** A payload: the `block`-th of the `page`-th page. */
  datatype Grant = Grant(page: nat, block: nat)

  ghost function Before(p: Params, pages: seq<Owned>, a: Ask): seq<Owned> {
    Provided(p, pages, a.request, a.tid, a.size)
  }

  function Chosen(p: Params, pages: seq<Owned>, a: Ask): nat {
    FirstTaking(p, pages, a.request, a.tid, a.size, 0)
  }

  /** The call ends, and the block that serves it has header room. Whether memory is left does not matter. */
  ghost predicate Acceptable(p: Params, pages: seq<Owned>, a: Ask) {
    && a.request != Unknown && 0 <= a.size && SearchEnds(p, pages, a.request, a.tid, a.size)
    && var q := Before(p, pages, a);
       Chosen(p, pages, a) < |q| && HasRoom(p, q[Chosen(p, pages, a)], a.size)
  }

  /** The pages after the call. */
  ghost function After(p: Params, pages: seq<Owned>, a: Ask): seq<Owned> {
    var q := Before(p, pages, a);
    if Chosen(p, pages, a) < |q| then Carved(q, Chosen(p, pages, a), a.size) else q
  }

  /** The pages that a history of calls leaves. */
  ghost function History(p: Params, asks: seq<Ask>): seq<Owned> {
    if asks == [] then []
    else After(p, History(p, asks[..|asks| - 1]), asks[|asks| - 1])
  }

  /** Every call of the history was acceptable when it was made. */
  ghost predicate Accepted(p: Params, asks: seq<Ask>) {
    forall n :: 0 <= n < |asks| ==> Acceptable(p, History(p, asks[..n]), asks[n])
  }

  /** The payload that the `n`-th call hands out. */
  ghost function GrantOf(p: Params, asks: seq<Ask>, n: nat): (g: Grant)
    requires Accepted(p, asks) && n < |asks|
  {
    var pages := History(p, asks[..n]);
    var k := Chosen(p, pages, asks[n]);
    Grant(k, |Before(p, pages, asks[n])[k].sizes|)
  }

  predicate In(pages: seq<Owned>, g: Grant) {
    g.page < |pages| && g.block < |pages[g.page].sizes|
  }

  function Address(p: Params, pages: seq<Owned>, g: Grant): int
    requires In(pages, g)
  {
    PayloadAddr(p, g.page, pages[g.page].sizes, g.block)
  }

  function Size(pages: seq<Owned>, g: Grant): int
    requires In(pages, g)
  {
    pages[g.page].sizes[g.block]
  }

  // ----- what one call, and so any later history, leaves as it was

  /** Page `k` still has its owner and all its payloads. */
  predicate Keeps(o: Owned, o': Owned) {
    o'.request == o.request && o'.tid == o.tid && |o.sizes| <= |o'.sizes| && o'.sizes[..|o.sizes|] == o.sizes
  }

  predicate Extends(pages: seq<Owned>, q: seq<Owned>) {
    |pages| <= |q| && forall i :: 0 <= i < |pages| ==> Keeps(pages[i], q[i])
  }

  /** Blocks fit, and library pages carry the library's tag. */
  ghost predicate AllFit(p: Params, pages: seq<Owned>) {
    forall i :: 0 <= i < |pages| ==> PageFits(p, pages[i]) && (pages[i].request == Library ==> pages[i].tid == -1)
  }

  lemma KeepsTrans(a: Owned, b: Owned, c: Owned)
    requires Keeps(a, b) && Keeps(b, c)
    ensures Keeps(a, c)
  {
  }

  lemma ExtendsItself(pages: seq<Owned>)
    ensures Extends(pages, pages)
  {
  }

  lemma CallExtends(p: Params, pages: seq<Owned>, a: Ask)
    requires Sensible(p) && AllFit(p, pages) && Acceptable(p, pages, a)
    ensures Extends(pages, After(p, pages, a)) && AllFit(p, After(p, pages, a))
    ensures |After(p, pages, a)| == |pages| + if Chosen(p, pages, a) == |pages| then 1 else 0
    ensures var q := Before(p, pages, a);
            var g := Grant(Chosen(p, pages, a), |q[Chosen(p, pages, a)].sizes|);
            && In(After(p, pages, a), g) && Size(After(p, pages, a), g) == a.size
            && After(p, pages, a)[g.page].request == a.request
            && After(p, pages, a)[g.page].tid == Tag(a.request, a.tid)
  {
    var q, k := Before(p, pages, a), Chosen(p, pages, a);
    CarvedFits(p, q[k], a.size);
    ProvidedTakes(p, pages, a.request, a.tid, a.size);
  }

  lemma {:induction false} HistoryFits(p: Params, asks: seq<Ask>)
    requires Sensible(p) && Accepted(p, asks)
    ensures AllFit(p, History(p, asks))
    ensures |asks| != 0 ==> Extends(History(p, asks[..|asks| - 1]), History(p, asks))
  {
    if asks != [] {
      var m := |asks| - 1;
      AcceptedPrefix(p, asks, m);
      HistoryFits(p, asks[..m]);
      CallExtends(p, History(p, asks[..m]), asks[m]);
    }
  }

  lemma AcceptedPrefix(p: Params, asks: seq<Ask>, m: nat)
    requires Accepted(p, asks) && m <= |asks|
    ensures Accepted(p, asks[..m])
    ensures forall n :: 0 <= n < m ==> asks[..m][..n] == asks[..n] && GrantOf(p, asks[..m], n) == GrantOf(p, asks, n)
  {
    assert forall n :: 0 <= n <= m ==> asks[..m][..n] == asks[..n];
    forall n | 0 <= n < m ensures Acceptable(p, History(p, asks[..m][..n]), asks[..m][n]) {
      assert asks[..m][..n] == asks[..n];
    }
  }

  /** Owners never change, and no payload is moved or resized, however the history goes on. */
  lemma {:induction false} OwnersNeverChange(p: Params, asks: seq<Ask>, m: nat)
    requires Sensible(p) && Accepted(p, asks) && m <= |asks|
    ensures Extends(History(p, asks[..m]), History(p, asks))
    decreases |asks|
  {
    hide Accepted, History, Keeps;
    if m == |asks| {
      assert asks[..m] == asks;
      ExtendsItself(History(p, asks));
    } else {
      var l := |asks| - 1;
      var a, b, c := History(p, asks[..m]), History(p, asks[..l]), History(p, asks);
      AcceptedPrefix(p, asks, l);
      HistoryFits(p, asks);
      OwnersNeverChange(p, asks[..l], m);
      assert asks[..l][..m] == asks[..m];
      forall i | 0 <= i < |a| ensures Keeps(a[i], c[i]) { KeepsTrans(a[i], b[i], c[i]); }
    }
  }

  lemma GrantStays(p: Params, pages: seq<Owned>, q: seq<Owned>, g: Grant)
    requires Extends(pages, q) && In(pages, g)
    ensures In(q, g) && Address(p, q, g) == Address(p, pages, g) && Size(q, g) == Size(pages, g)
    ensures q[g.page].request == pages[g.page].request && q[g.page].tid == pages[g.page].tid
  {
    UsedPrefix(p, q[g.page].sizes, |pages[g.page].sizes|, g.block);
  }

  /** The payload of call `n` still is, at the end of any history, where it was when it was handed out, of the
      size asked for, and in a page of the caller. */
  lemma GrantStands(p: Params, asks: seq<Ask>, n: nat)
    requires Sensible(p) && Accepted(p, asks) && n < |asks|
    ensures var g, pages, at := GrantOf(p, asks, n), History(p, asks), History(p, asks[..n + 1]);
            && In(at, g) && In(pages, g) && Address(p, pages, g) == Address(p, at, g)
            && Size(pages, g) == asks[n].size
            && pages[g.page].request == asks[n].request && pages[g.page].tid == Tag(asks[n].request, asks[n].tid)
  {
    AcceptedPrefix(p, asks, n);
    HistoryFits(p, asks[..n]);
    CallExtends(p, History(p, asks[..n]), asks[n]);
    assert asks[..n + 1][..n] == asks[..n];
    OwnersNeverChange(p, asks, n + 1);
    GrantStays(p, History(p, asks[..n + 1]), History(p, asks), GrantOf(p, asks, n));
  }

  /** No payload is handed out twice. */
  lemma GrantsDiffer(p: Params, asks: seq<Ask>, m: nat, n: nat)
    requires Sensible(p) && Accepted(p, asks) && m < n < |asks|
    ensures GrantOf(p, asks, m) != GrantOf(p, asks, n)
  {
    AcceptedPrefix(p, asks, n);
    GrantStands(p, asks[..n], m);
  }

  /** All payloads that a history hands out are pairwise disjoint. */
  lemma HistoryDisjoint(p: Params, asks: seq<Ask>, m: nat, n: nat)
    requires Sensible(p) && Accepted(p, asks) && m < n < |asks|
    ensures var g, h, pages := GrantOf(p, asks, m), GrantOf(p, asks, n), History(p, asks);
            In(pages, g) && In(pages, h)
            && Apart(Address(p, pages, g), asks[m].size, Address(p, pages, h), asks[n].size)
  {
    GrantStands(p, asks, m);
    GrantStands(p, asks, n);
    GrantsDiffer(p, asks, m, n);
    HistoryFits(p, asks);
    var g, h := GrantOf(p, asks, m), GrantOf(p, asks, n);
    PayloadsDisjoint(p, History(p, asks), g.page, g.block, h.page, h.block);
  }

  /** Callers whose payloads share any byte range of one page size that starts at a page are the same caller:
      the library shares a page with nobody, nor do two threads share one. */
  lemma OwnersIsolated(p: Params, asks: seq<Ask>, m: nat, n: nat, i: nat)
    requires Sensible(p) && Accepted(p, asks) && m < |asks| && n < |asks|
    requires var g, h, pages := GrantOf(p, asks, m), GrantOf(p, asks, n), History(p, asks);
             In(pages, g) && In(pages, h)
             && PageAddr(p, i) <= Address(p, pages, g) < PageAddr(p, i) + p.pageSize
             && PageAddr(p, i) <= Address(p, pages, h) < PageAddr(p, i) + p.pageSize
    ensures asks[m].request == asks[n].request && (asks[m].request == Client ==> asks[m].tid == asks[n].tid)
  {
    GrantStands(p, asks, m);
    GrantStands(p, asks, n);
    HistoryFits(p, asks);
    SamePage(p, History(p, asks), GrantOf(p, asks, m), i);
    SamePage(p, History(p, asks), GrantOf(p, asks, n), i);
  }

  lemma SamePage(p: Params, pages: seq<Owned>, g: Grant, i: nat)
    requires Sensible(p) && AllFit(p, pages) && In(pages, g)
    requires PageAddr(p, i) <= Address(p, pages, g) < PageAddr(p, i) + p.pageSize
    ensures g.page == i
  {
    BlockInside(p, g.page, pages[g.page], g.block);
    if g.page < i { PageOrder(p, g.page, i); } else if i < g.page { PageOrder(p, i, g.page); }
  }

  /** A payload that a history hands out is apart from the header of every page, assigned or not, and from every
      block header, and lies in physical memory if the pages do. */
  lemma GrantApartFromHeaders(p: Params, asks: seq<Ask>, n: nat)
    requires Sensible(p) && Accepted(p, asks) && n < |asks|
    ensures var g, pages := GrantOf(p, asks, n), History(p, asks);
            && In(pages, g)
            && var x := Address(p, pages, g);
               && (forall i: nat :: i <= |pages| ==> Apart(x, asks[n].size, PageAddr(p, i), p.pageHeader))
               && (forall i: nat, j: nat :: i < |pages| && j <= |pages[i].sizes| ==>
                                  Apart(x, asks[n].size, BlockAddr(p, i, pages[i].sizes, j), p.blockHeader))
               && (Within(p, |pages|) ==> p.base <= x && x + asks[n].size <= p.base + p.size)
  {
    hide BlockAddr, PayloadAddr, GrantOf, History, Accepted;
    GrantStands(p, asks, n);
    HistoryFits(p, asks);
    ApartFromHeaders(p, History(p, asks), GrantOf(p, asks, n));
  }

  lemma ApartFromHeaders(p: Params, pages: seq<Owned>, g: Grant)
    requires Sensible(p) && AllFit(p, pages) && In(pages, g)
    ensures var x, size := Address(p, pages, g), Size(pages, g);
            && (forall i: nat :: i <= |pages| ==> Apart(x, size, PageAddr(p, i), p.pageHeader))
            && (forall i: nat, j: nat :: i < |pages| && j <= |pages[i].sizes| ==>
                               Apart(x, size, BlockAddr(p, i, pages[i].sizes, j), p.blockHeader))
            && (Within(p, |pages|) ==> p.base <= x && x + size <= p.base + p.size)
  {
    hide BlockAddr;
    var o := pages[g.page];
    BlockInside(p, g.page, o, g.block);
    forall i: nat | i <= |pages| ensures Apart(Address(p, pages, g), Size(pages, g), PageAddr(p, i), p.pageHeader) {
      if i < g.page { PageOrder(p, i, g.page); } else if g.page < i { PageOrder(p, g.page, i); }
    }
    forall i: nat, j: nat | i < |pages| && j <= |pages[i].sizes|
      ensures Apart(Address(p, pages, g), Size(pages, g), BlockAddr(p, i, pages[i].sizes, j), p.blockHeader)
    {
      BlockInside(p, i, pages[i], j);
      if i < g.page {
        PageOrder(p, i, g.page);
      } else if g.page < i {
        PageOrder(p, g.page, i);
      } else {
        PayloadHeaderApart(p, i, o, g.block, j);
      }
    }
    if Within(p, |pages|) { PagesInsideMemory(p, g.page, |pages|); }
  }

  /** A call adds one page exactly when no page takes it, whatever the memory that is left. */
  lemma CallAddsPage(p: Params, asks: seq<Ask>, a: Ask)
    requires Sensible(p) && Accepted(p, asks + [a])
    ensures |History(p, asks + [a])| == |History(p, asks)| + if Chosen(p, History(p, asks), a) == |History(p, asks)| then 1 else 0
  {
    var all := asks + [a];
    assert all[..|asks|] == asks && all[|asks|] == a;
    AcceptedPrefix(p, all, |asks|);
    HistoryFits(p, asks);
    CallExtends(p, History(p, asks), a);
  }

  /** my_allocate performs one call of a history: if memory is what the calls so far leave, it is what they
      and this call leave afterwards, and the address is that of the payload granted to this call. Headers and
      data are then all in physical memory exactly when that holds the pages of the history. */
  method AllocateNext(a: Allocator, ghost asks: seq<Ask>, ask: Ask) returns (r: int)
    requires a.Valid() && a.pages == History(a.p, asks)
    requires Accepted(a.p, asks + [ask])
    modifies a
    ensures a.Valid() && a.initialised && a.pages == History(a.p, asks + [ask]) && DataKept(old(a.mem), a.mem)
    ensures In(a.pages, GrantOf(a.p, asks + [ask], |asks|))
    ensures r == Address(a.p, a.pages, GrantOf(a.p, asks + [ask], |asks|))
    ensures Inside(a.p, a.mem) <==> Within(a.p, |History(a.p, asks + [ask])|)
  {
    ghost var all := asks + [ask];
    assert all[..|asks|] == asks && all[..|asks| + 1] == all;
    assert Acceptable(a.p, History(a.p, asks), ask);
    GrantStands(a.p, all, |asks|);
    ghost var q, k := Before(a.p, a.pages, ask), Chosen(a.p, a.pages, ask);
    CarvedBlocks(a.p, k, q[k], ask.size, |q[k].sizes|);
    var exits;
    r, exits := a.MyAllocate(ask.size, ask.request, ask.tid);
    if !Within(a.p, |a.pages|) { LaidOutOutside(a.p, a.mem, a.pages); }
  }

  /** With whole pages, a call that needs a new page leaves all headers and data in physical memory exactly
      while fewer pages than the capacity are assigned. Past that the code goes on serving requests from pages
      beyond the end of memory. */
  method AllocateAtCapacity(a: Allocator, ghost count: nat, ghost asks: seq<Ask>, ask: Ask) returns (r: int)
    requires a.Valid() && a.pages == History(a.p, asks) && WholePages(a.p, count)
    requires Accepted(a.p, asks + [ask]) && Chosen(a.p, a.pages, ask) == |a.pages|
    modifies a
    ensures a.Valid() && a.initialised && a.pages == History(a.p, asks + [ask]) && r != 0
    ensures Inside(a.p, a.mem) <==> |History(a.p, asks)| < (a.p.size - a.p.metaSize) / a.p.pageSize
  {
    hide History, Accepted, Within, Inside, Chosen;
    CallAddsPage(a.p, asks, ask);
    Capacity(a.p, count, |History(a.p, asks + [ask])|);
    r := AllocateNext(a, asks, ask);
    AddressPositive(a.p, a.pages, GrantOf(a.p, asks + [ask], |asks|)) by { HistoryFits(a.p, asks + [ask]); }
  }

  lemma AddressPositive(p: Params, pages: seq<Owned>, g: Grant)
    requires Sensible(p) && AllFit(p, pages) && In(pages, g)
    ensures 0 < Address(p, pages, g)
  {
    PageAddrPositive(p, g.page);
    BlockInside(p, g.page, pages[g.page], g.block);
  }

  // ----- the library's own sizes

  /** Pages of 4096 bytes in 8 megabytes, and the structs as a 64-bit machine lays them out. */
  function Usual(): (p: Params)
    ensures Sensible(p)
  {
    Params(4096, 8388608, 4096, 32, 64, 40)
  }

  /** my_pthread_create asks for a stack of 8192 bytes: on pages of 4096 its search never ends, whatever is
      assigned, and create never returns. */
  lemma StackNeverServed(pages: seq<Owned>, n: nat)
    requires AllFit(Usual(), pages)
    ensures !SearchEnds(Usual(), pages, Library, -1, 8192)
    ensures !Finds(Usual(), Rounds(Usual(), pages, Library, -1, n), Library, -1, 8192)
  {
    var k := FirstTaking(Usual(), pages, Library, -1, 8192, 0);
    if k < |pages| { UsedNat(Usual(), pages[k].sizes, |pages[k].sizes|); }
    assert !SearchEnds(Usual(), pages, Library, -1, 8192);
    RoundsInVain(Usual(), pages, Library, -1, 8192, n);
  }

  /** One request of one size from each of `n` threads. */
  function OneEach(n: nat, size: int): (asks: seq<Ask>)
    ensures |asks| == n && forall i :: 0 <= i < n ==> asks[i] == Ask(Client, i, size)
  {
    seq(n, i => Ask(Client, i, size))
  }

  lemma {:induction false} OnePageEach(p: Params, count: nat, n: nat, size: int)
    requires WholePages(p, count) && 0 <= size && size + 2 * p.blockHeader <= p.pageSize - p.pageHeader
    ensures Accepted(p, OneEach(n, size)) && |History(p, OneEach(n, size))| == n
    ensures forall i :: 0 <= i < n ==> History(p, OneEach(n, size))[i] == Owned(Client, i, [size])
  {
    hide History, Accepted, Acceptable, After, OneEach;
    var asks := OneEach(n, size);
    if n == 0 {
      NoCalls(p);
    } else {
      OnePageEach(p, count, n - 1, size);
      OneEachPrefix(n, size);
      NextThread(p, count, History(p, asks[..n - 1]), n - 1, size);
      AcceptedMore(p, asks);
    }
  }

  lemma OneEachPrefix(n: nat, size: int)
    requires 0 < n
    ensures OneEach(n, size)[..n - 1] == OneEach(n - 1, size)
  {
  }

  lemma NoCalls(p: Params)
    ensures Accepted(p, []) && History(p, []) == []
  {
  }

  /** The next thread's request is acceptable and assigns a page. */
  lemma NextThread(p: Params, count: nat, pages: seq<Owned>, n: nat, size: int)
    requires WholePages(p, count) && 0 <= size && size + 2 * p.blockHeader <= p.pageSize - p.pageHeader
    requires |pages| == n && forall i :: 0 <= i < n ==> pages[i] == Owned(Client, i, [size])
    ensures Acceptable(p, pages, Ask(Client, n, size))
    ensures After(p, pages, Ask(Client, n, size)) == pages + [Owned(Client, n, [size])]
  {
    Capacity(p, count, n);
    var a := Ask(Client, n, size);
    assert Chosen(p, pages, a) == n;
    assert FreshTakes(p, Client, n, size);
    assert [] + [size] == [size];
  }

  lemma LastCall(p: Params, asks: seq<Ask>)
    requires asks != []
    ensures History(p, asks) == After(p, History(p, asks[..|asks| - 1]), asks[|asks| - 1])
  {
  }

  lemma AcceptedMore(p: Params, asks: seq<Ask>)
    requires asks != [] && Accepted(p, asks[..|asks| - 1])
    requires Acceptable(p, History(p, asks[..|asks| - 1]), asks[|asks| - 1])
    ensures Accepted(p, asks) && History(p, asks) == After(p, History(p, asks[..|asks| - 1]), asks[|asks| - 1])
  {
    hide Acceptable, History, Accepted;
    LastCall(p, asks);
    forall n | 0 <= n < |asks| ensures WasAcceptable(p, asks, n) {
      if n < |asks| - 1 {
        AcceptedBefore(p, asks, |asks| - 1, n);
      }
    }
    AllAccepted(p, asks);
  }

  ghost predicate WasAcceptable(p: Params, asks: seq<Ask>, n: nat)
    requires n < |asks|
  {
    Acceptable(p, History(p, asks[..n]), asks[n])
  }

  lemma AcceptedBefore(p: Params, asks: seq<Ask>, m: nat, n: nat)
    requires n < m <= |asks| && Accepted(p, asks[..m])
    ensures WasAcceptable(p, asks, n)
  {
    hide Acceptable, History;
    assert asks[..m][n] == asks[n];
    assert asks[..m][..n] == asks[..n];
  }

  lemma AllAccepted(p: Params, asks: seq<Ask>)
    requires forall n :: 0 <= n < |asks| ==> WasAcceptable(p, asks, n)
    ensures Accepted(p, asks)
  {
    hide Acceptable, History;
    forall n | 0 <= n < |asks| ensures Acceptable(p, History(p, asks[..n]), asks[n]) {
      assert WasAcceptable(p, asks, n);
    }
  }

  /** 2047 threads that ask for one byte each fill physical memory; the 2048th is served from beyond its end. */
  lemma MemoryFilled()
    ensures var full, over := OneEach(2047, 1), OneEach(2048, 1);
            && Accepted(Usual(), full) && Accepted(Usual(), over) && over[..2047] == full
            && |History(Usual(), full)| == 2047 == (Usual().size - Usual().metaSize) / Usual().pageSize
            && Within(Usual(), |History(Usual(), full)|) && !Within(Usual(), |History(Usual(), over)|)
  {
    hide History, Accepted, OneEach, Within;
    OnePageEach(Usual(), 2048, 2047, 1);
    OnePageEach(Usual(), 2048, 2048, 1);
    Capacity(Usual(), 2048, 2047);
    Capacity(Usual(), 2048, 2048);
    OneEachPrefix(2048, 1);
  }

  /** A negative request, served: after a payload of 100 bytes the main thread asks for -180 bytes, and is given
      the second block's payload while the block list is cut back to nothing. */
  method NegativeRequest() returns (a: Allocator, first: int, second: int)
    ensures a.p == Usual() && first != 0 && second == first + 140
    ensures LaidOut(a.p, a.mem, [Owned(Client, 0, [])])
  {
    a := new Allocator(Usual());
    var exits;
    assert HasRoom(Usual(), Owned(Client, 0, []), 100);
    first, exits := a.MyAllocate(100, Client, 0);
    assert [] + [100] == [100] && a.pages == Carved([Owned(Client, 0, [])], 0, 100);
    assert a.pages == [Owned(Client, 0, [100])];
    UsedOne(Usual(), 100);
    assert LandsOn(Usual(), a.pages[0], -180, 0);
    ghost var before := a.pages;
    second, exits := a.MyAllocate(-180, Client, 0);
    assert CutBack(before, 0, 0) == [Owned(Client, 0, [])];
  }

  /** The main thread asks for 100 bytes and then for the 3892 that its page has left: the guard of
      allocate_for_thread skips the page, and the second payload lies in a second one. */
  method ExactFitSkipped() returns (a: Allocator, first: int, second: int)
    ensures a.p == Usual() && first == 4096 + 32 + 64 + 40 && second == first + 4096
    ensures a.Valid() && a.pages == [Owned(Client, 0, [100]), Owned(Client, 0, [3892])]
  {
    a := new Allocator(Usual());
    var exits;
    assert HasRoom(Usual(), Owned(Client, 0, []), 100) && HasRoom(Usual(), Owned(Client, 0, []), 3892);
    first, exits := a.MyAllocate(100, Client, 0);
    assert [] + [100] == [100] && [] + [3892] == [3892] && a.pages == Carved([Owned(Client, 0, [])], 0, 100);
    assert a.pages == [Owned(Client, 0, [100])];
    UsedOne(Usual(), 100);
    assert Trailing(Usual(), a.pages[0]) == 3892 && Remainder(Usual(), 1) != 0;
    second, exits := a.MyAllocate(3892, Client, 0);
  }

  lemma UsedOne(p: Params, size: int)
    ensures Used(p, [size], 1) == size + p.blockHeader && Used(p, [size], 0) == 0
  {
    assert Used(p, [size], 0) == 0;
  }
}
