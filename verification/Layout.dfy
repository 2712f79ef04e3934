/** The simulated memory of memory_manager.c: headers and client data at byte addresses, and the layout
    that the page and block lists are meant to have. */
module Layout {

  datatype Request = Unknown | Library | Client

  /** struct page and struct block; 0 stands for NULL. */
  datatype Page = Page(inUse: bool, request: Request, tid: int, sizeOfAllocated: int,
                       start: int, end: int, blockHead: int, next: int)

  datatype Block = Block(taken: bool, dataSize: int, totalSize: int, address: int, dataAddress: int, next: int)

  /** What lies at an address: a header or bytes that a client stored. */
  datatype Cell = PageCell(page: Page) | BlockCell(block: Block) | DataCell(len: int, value: int)

  type Memory = map<int, Cell>

  /** Where PHYSICAL_MEMORY lies, its size, the page size and the sizes of the three structs. */
  datatype Params = Params(base: int, size: int, pageSize: int, metaSize: int, pageHeader: int, blockHeader: int)

  predicate Sensible(p: Params) {
    && 0 < p.base && 0 < p.metaSize && 0 < p.pageHeader && 0 < p.blockHeader
    && p.pageHeader + p.blockHeader <= p.pageSize
    && p.metaSize + p.pageHeader <= p.size
  }

  function Extent(p: Params, c: Cell): int {
    match c
    case PageCell(_) => p.pageHeader
    case BlockCell(_) => p.blockHeader
    case DataCell(len, _) => len
  }

  predicate Apart(x: int, n: int, y: int, m: int) {
    x + n <= y || y + m <= x
  }

  /** memcpy into memory: whatever it overlaps is no longer there. */
  function Write(p: Params, mem: Memory, a: int, c: Cell): Memory {
    (map x | x in mem && Apart(x, Extent(p, mem[x]), a, Extent(p, c)) :: mem[x])[a := c]
  }

  predicate Has(mem: Memory, a: int, c: Cell) {
    a in mem && mem[a] == c
  }

  lemma WriteHas(p: Params, mem: Memory, a: int, c: Cell)
    ensures Has(Write(p, mem, a, c), a, c)
    ensures forall x, d :: Has(mem, x, d) && x != a && Apart(x, Extent(p, d), a, Extent(p, c)) ==> Has(Write(p, mem, a, c), x, d)
    ensures forall x :: x in Write(p, mem, a, c) && x != a ==> Has(mem, x, Write(p, mem, a, c)[x])
  {
  }

  /** No two things in memory overlap. */
  predicate Solid(p: Params, mem: Memory) {
    forall x, y :: x in mem && y in mem && x != y ==> Apart(x, Extent(p, mem[x]), y, Extent(p, mem[y]))
  }

  lemma WriteKeepsSolid(p: Params, mem: Memory, a: int, c: Cell)
    requires Solid(p, mem)
    ensures Solid(p, Write(p, mem, a, c))
  {
  }

  // ----- the intended layout

  /** An assigned page: its owner and the sizes of the payloads handed out in it, in order. */
  datatype Owned = Owned(request: Request, tid: int, sizes: seq<int>)

  function PageAddr(p: Params, i: nat): int {
    if i == 0 then p.base + p.metaSize else PageAddr(p, i - 1) + p.pageSize
  }

  /** Bytes taken by the first `j` blocks, headers included. */
  function Used(p: Params, sizes: seq<int>, j: nat): int
    requires j <= |sizes|
  {
    if j == 0 then 0 else Used(p, sizes, j - 1) + sizes[j - 1] + p.blockHeader
  }

  function BlockAddr(p: Params, i: nat, sizes: seq<int>, j: nat): int
    requires j <= |sizes|
  {
    PageAddr(p, i) + p.pageHeader + Used(p, sizes, j)
  }

  function PayloadAddr(p: Params, i: nat, sizes: seq<int>, j: nat): int
    requires j <= |sizes|
  {
    BlockAddr(p, i, sizes, j) + p.blockHeader
  }

  /** Bytes in the trailing UNALLOCATED block, its header included. */
  function Trailing(p: Params, o: Owned): int {
    p.pageSize - p.pageHeader - Used(p, o.sizes, |o.sizes|)
  }

  predicate GoodSizes(sizes: seq<int>) {
    forall j :: 0 <= j < |sizes| ==> 0 <= sizes[j]
  }

  /** Bytes of physical memory from the end of the `k`-th page on. */
  function Remainder(p: Params, k: nat): int {
    p.base + p.size - PageAddr(p, k)
  }

  function ExpectedPage(p: Params, pages: seq<Owned>, i: nat): Cell
    requires i < |pages|
  {
    var o := pages[i];
    PageCell(Page(true, o.request, o.tid, p.pageHeader + Used(p, o.sizes, |o.sizes|),
                  PageAddr(p, i), PageAddr(p, i) + p.pageSize - 1, PageAddr(p, i) + p.pageHeader,
                  if i + 1 < |pages| || Remainder(p, |pages|) != 0 then PageAddr(p, i + 1) else 0))
  }

  function ExpectedRest(p: Params, k: nat): Cell {
    PageCell(Page(false, Unknown, -1, p.pageHeader, PageAddr(p, k), p.base + p.size - 1, 0, 0))
  }

  function ExpectedBlock(p: Params, i: nat, o: Owned, j: nat): Cell
    requires j <= |o.sizes|
  {
    var a := BlockAddr(p, i, o.sizes, j);
    if j < |o.sizes|
    then BlockCell(Block(true, o.sizes[j], o.sizes[j] + p.blockHeader, a, a + p.blockHeader, BlockAddr(p, i, o.sizes, j + 1)))
    else BlockCell(Block(false, 0, Trailing(p, o), a, a + p.blockHeader, 0))
  }

  predicate PageFits(p: Params, o: Owned) {
    GoodSizes(o.sizes) && p.blockHeader <= Trailing(p, o)
  }

  /** Page `i` is assigned to `o` and its block list tiles it. */
  predicate HoldsPage(p: Params, mem: Memory, pages: seq<Owned>, i: nat)
    requires i < |pages|
  {
    && PageFits(p, pages[i]) && Remainder(p, i) != 0
    && Has(mem, PageAddr(p, i), ExpectedPage(p, pages, i))
    && forall j :: 0 <= j <= |pages[i].sizes| ==> Has(mem, BlockAddr(p, i, pages[i].sizes, j), ExpectedBlock(p, i, pages[i], j))
  }

  /** The unassigned page's header follows the last page, unless the pages end exactly where memory does. */
  predicate HoldsRest(p: Params, mem: Memory, k: nat) {
    Remainder(p, k) != 0 ==> Has(mem, PageAddr(p, k), ExpectedRest(p, k))
  }

  /** Physical memory holds `k` pages, and the unassigned page's header if there is one. */
  predicate Within(p: Params, k: nat) {
    Remainder(p, k) == 0 || p.pageHeader <= Remainder(p, k)
  }

  /** No header or client data reaches past the end of physical memory. */
  predicate Inside(p: Params, mem: Memory) {
    forall x :: x in mem ==> x + Extent(p, mem[x]) <= p.base + p.size
  }

  /** Memory is laid out as `pages`: consecutive assigned pages, then the unassigned rest. Nothing here keeps
      the pages from running past the end of physical memory; Within says whether they do. */
  predicate LaidOut(p: Params, mem: Memory, pages: seq<Owned>) {
    && (forall i :: 0 <= i < |pages| ==> HoldsPage(p, mem, pages, i))
    && HoldsRest(p, mem, |pages|)
  }

  /** Every byte range that clients stored lies inside one payload that was handed out. */
  predicate DataInside(p: Params, mem: Memory, pages: seq<Owned>) {
    forall x :: x in mem && mem[x].DataCell? ==> InSomePayload(p, pages, x, mem[x].len)
  }

  predicate InSomePayload(p: Params, pages: seq<Owned>, x: int, len: int) {
    exists i, j :: 0 <= i < |pages| && 0 <= j < |pages[i].sizes| && InPayload(p, i, pages[i].sizes, j, x, len)
  }

  predicate InPayload(p: Params, i: nat, sizes: seq<int>, j: nat, x: int, len: int)
    requires j < |sizes|
  {
    && 0 < len && PayloadAddr(p, i, sizes, j) <= x
    && x + len <= PayloadAddr(p, i, sizes, j) + sizes[j]
  }

  // ----- geometry

  lemma {:induction false} PageOrder(p: Params, i: nat, k: nat)
    requires Sensible(p) && i < k
    ensures PageAddr(p, i) + p.pageSize <= PageAddr(p, k)
    decreases k
  {
    if i + 1 < k {
      PageOrder(p, i, k - 1);
    }
  }

  lemma {:induction false} PageAddrClosed(p: Params, i: nat)
    ensures PageAddr(p, i) == p.base + p.metaSize + i * p.pageSize
  {
    if i != 0 {
      PageAddrClosed(p, i - 1);
    }
  }

  lemma {:induction false} UsedOrder(p: Params, sizes: seq<int>, j: nat, k: nat)
    requires Sensible(p) && GoodSizes(sizes) && j < k <= |sizes|
    ensures 0 <= Used(p, sizes, j) && Used(p, sizes, j) + sizes[j] + p.blockHeader <= Used(p, sizes, k)
    decreases k
  {
    if j + 1 < k {
      UsedOrder(p, sizes, j, k - 1);
    } else {
      UsedNat(p, sizes, j);
    }
  }

  lemma {:induction false} UsedNat(p: Params, sizes: seq<int>, j: nat)
    requires Sensible(p) && GoodSizes(sizes) && j <= |sizes|
    ensures 0 <= Used(p, sizes, j)
  {
    if j != 0 {
      UsedNat(p, sizes, j - 1);
    }
  }

  lemma {:induction false} UsedAppend(p: Params, sizes: seq<int>, size: int, j: nat)
    requires j <= |sizes|
    ensures Used(p, sizes + [size], j) == Used(p, sizes, j)
  {
    if j != 0 {
      UsedAppend(p, sizes, size, j - 1);
    }
  }

  lemma {:induction false} UsedPrefix(p: Params, sizes: seq<int>, n: nat, j: nat)
    requires j <= n <= |sizes|
    ensures Used(p, sizes[..n], j) == Used(p, sizes, j)
  {
    if j != 0 {
      UsedPrefix(p, sizes, n, j - 1);
    }
  }

  /** Block headers and payloads lie inside their page, past its header, in list order. */
  lemma BlockInside(p: Params, i: nat, o: Owned, j: nat)
    requires Sensible(p) && PageFits(p, o) && j <= |o.sizes|
    ensures PageAddr(p, i) + p.pageHeader <= BlockAddr(p, i, o.sizes, j)
    ensures BlockAddr(p, i, o.sizes, j) + p.blockHeader + (if j < |o.sizes| then o.sizes[j] else 0) <= PageAddr(p, i) + p.pageSize
    ensures j < |o.sizes| ==> BlockAddr(p, i, o.sizes, j) + p.blockHeader + o.sizes[j] + p.blockHeader <= PageAddr(p, i) + p.pageSize
  {
    UsedNat(p, o.sizes, j);
    if j < |o.sizes| { UsedOrder(p, o.sizes, j, |o.sizes|); }
  }

  /** Payloads are apart from every block header of their page. */
  lemma PayloadHeaderApart(p: Params, i: nat, o: Owned, j: nat, k: nat)
    requires Sensible(p) && PageFits(p, o) && j < |o.sizes| && k <= |o.sizes|
    ensures Apart(PayloadAddr(p, i, o.sizes, j), o.sizes[j], BlockAddr(p, i, o.sizes, k), p.blockHeader)
  {
    if j < k { UsedOrder(p, o.sizes, j, k); } else if k < j { UsedOrder(p, o.sizes, k, j); }
  }

  lemma HeadersApart(p: Params, i: nat, o: Owned, j: nat, k: nat)
    requires Sensible(p) && PageFits(p, o) && j <= |o.sizes| && k <= |o.sizes| && j != k
    ensures Apart(BlockAddr(p, i, o.sizes, j), p.blockHeader, BlockAddr(p, i, o.sizes, k), p.blockHeader)
    ensures BlockAddr(p, i, o.sizes, j) != BlockAddr(p, i, o.sizes, k)
  {
    if j < k { UsedOrder(p, o.sizes, j, k); } else { UsedOrder(p, o.sizes, k, j); }
  }

  /** Any two payloads ever handed out are disjoint. */
  lemma PayloadsDisjoint(p: Params, pages: seq<Owned>, i: nat, j: nat, k: nat, l: nat)
    requires Sensible(p) && (forall m :: 0 <= m < |pages| ==> PageFits(p, pages[m]))
    requires i < |pages| && j < |pages[i].sizes| && k < |pages| && l < |pages[k].sizes| && (i != k || j != l)
    ensures Apart(PayloadAddr(p, i, pages[i].sizes, j), pages[i].sizes[j], PayloadAddr(p, k, pages[k].sizes, l), pages[k].sizes[l])
  {
    BlockInside(p, i, pages[i], j);
    BlockInside(p, k, pages[k], l);
    if i < k {
      PageOrder(p, i, k);
    } else if k < i {
      PageOrder(p, k, i);
    } else if j < l {
      UsedOrder(p, pages[i].sizes, j, l);
    } else {
      UsedOrder(p, pages[i].sizes, l, j);
    }
  }
}
