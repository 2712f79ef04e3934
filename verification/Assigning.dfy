/** What assign_page of memory_manager.c does to the layout. */
module Assigning {
  import opened Layout
  import opened Carving

  ghost function Grown(pages: seq<Owned>, request: Request, tid: int): (q: seq<Owned>) {
    pages + [Owned(request, tid, [])]
  }

  /** Memory after assign_page: a fresh block list, then the page list around the new page. */
  ghost function AssignMem(p: Params, mem: Memory, pages: seq<Owned>, request: Request, tid: int): Memory {
    var q := Grown(pages, request, tid);
    var k := |pages|;
    var m1 := Write(p, mem, BlockAddr(p, k, [], 0), ExpectedBlock(p, k, q[k], 0));
    if Remainder(p, k) == p.pageSize then
      Write(p, m1, PageAddr(p, k), ExpectedPage(p, q, k))
    else
      var m2 := if k == 0 then m1 else Write(p, m1, PageAddr(p, k - 1), ExpectedPage(p, q, k - 1));
      var m3 := Write(p, m2, PageAddr(p, k), ExpectedPage(p, q, k));
      Write(p, m3, PageAddr(p, k + 1), ExpectedRest(p, k + 1))
  }

  /** Earlier pages are expected as they were. */
  lemma GrownPages(p: Params, pages: seq<Owned>, request: Request, tid: int)
    requires Sensible(p) && Remainder(p, |pages|) != 0
    ensures var q := Grown(pages, request, tid);
            && |q| == |pages| + 1 && q[|pages|] == Owned(request, tid, [])
            && forall i :: 0 <= i < |pages| ==> q[i] == pages[i] && ExpectedPage(p, q, i) == ExpectedPage(p, pages, i)
  {
  }

  /** A cell below the unassigned page survives, apart from the last page's header, which is rewritten as it was. */
  lemma AssignSurvives(p: Params, mem: Memory, pages: seq<Owned>, request: Request, tid: int, x: int, d: Cell)
    requires Sensible(p) && Remainder(p, |pages|) != 0
    requires Has(mem, x, d) && 0 < Extent(p, d) && x + Extent(p, d) <= PageAddr(p, |pages|)
    requires |pages| != 0 ==> x != PageAddr(p, |pages| - 1) && Apart(x, Extent(p, d), PageAddr(p, |pages| - 1), p.pageHeader)
    ensures Has(AssignMem(p, mem, pages, request, tid), x, d)
  {
  }

  lemma NewPageHolds(p: Params, mem: Memory, pages: seq<Owned>, request: Request, tid: int)
    requires Sensible(p) && Remainder(p, |pages|) != 0
    ensures var q := Grown(pages, request, tid);
            HoldsPage(p, AssignMem(p, mem, pages, request, tid), q, |pages|)
    ensures HoldsRest(p, AssignMem(p, mem, pages, request, tid), |pages| + 1)
  {
    hide Write;
    var q := Grown(pages, request, tid);
    var k := |pages|;
    var b, blk := BlockAddr(p, k, [], 0), ExpectedBlock(p, k, q[k], 0);
    var m1 := Write(p, mem, b, blk);
    WriteHas(p, mem, b, blk);
    if Remainder(p, k) == p.pageSize {
      WriteHas(p, m1, PageAddr(p, k), ExpectedPage(p, q, k));
      Survives(p, m1, b, blk, PageAddr(p, k), ExpectedPage(p, q, k));
    } else {
      var m2 := if k == 0 then m1 else Write(p, m1, PageAddr(p, k - 1), ExpectedPage(p, q, k - 1));
      if k != 0 {
        PageOrder(p, k - 1, k);
        Survives(p, m1, b, blk, PageAddr(p, k - 1), ExpectedPage(p, q, k - 1));
      }
      var m3 := Write(p, m2, PageAddr(p, k), ExpectedPage(p, q, k));
      WriteHas(p, m2, PageAddr(p, k), ExpectedPage(p, q, k));
      Survives(p, m2, b, blk, PageAddr(p, k), ExpectedPage(p, q, k));
      WriteHas(p, m3, PageAddr(p, k + 1), ExpectedRest(p, k + 1));
      Survives(p, m3, b, blk, PageAddr(p, k + 1), ExpectedRest(p, k + 1));
      Survives(p, m3, PageAddr(p, k), ExpectedPage(p, q, k), PageAddr(p, k + 1), ExpectedRest(p, k + 1));
    }
  }

  /** The last old page's header is written again as it was. */
  lemma LastHeaderHolds(p: Params, mem: Memory, pages: seq<Owned>, request: Request, tid: int)
    requires Sensible(p) && Remainder(p, |pages|) != 0 && pages != []
    requires HoldsPage(p, mem, pages, |pages| - 1)
    ensures Has(AssignMem(p, mem, pages, request, tid), PageAddr(p, |pages| - 1), ExpectedPage(p, pages, |pages| - 1))
  {
  }

  lemma OldPageHolds(p: Params, mem: Memory, pages: seq<Owned>, request: Request, tid: int, i: nat)
    requires Sensible(p) && Remainder(p, |pages|) != 0 && i < |pages| && HoldsPage(p, mem, pages, i)
    requires HoldsPage(p, mem, pages, |pages| - 1)
    ensures HoldsPage(p, AssignMem(p, mem, pages, request, tid), Grown(pages, request, tid), i)
  {
    hide Write, AssignMem, BlockAddr;
    GrownPages(p, pages, request, tid);
    var k := |pages|;
    var o := pages[i];
    PageOrder(p, i, k);
    BlockInside(p, i, o, 0);
    if i == k - 1 {
      LastHeaderHolds(p, mem, pages, request, tid);
    } else {
      PageOrder(p, i, k - 1);
      AssignSurvives(p, mem, pages, request, tid, PageAddr(p, i), ExpectedPage(p, pages, i));
    }
    forall j | 0 <= j <= |o.sizes|
      ensures Has(AssignMem(p, mem, pages, request, tid), BlockAddr(p, i, o.sizes, j), ExpectedBlock(p, i, o, j))
    {
      BlockInside(p, i, o, j);
      AssignSurvives(p, mem, pages, request, tid, BlockAddr(p, i, o.sizes, j), ExpectedBlock(p, i, o, j));
    }
  }

  /** Assigning appends one empty page and leaves every other page alone. */
  lemma AssignKeepsLayout(p: Params, mem: Memory, pages: seq<Owned>, request: Request, tid: int)
    requires Sensible(p) && LaidOut(p, mem, pages) && Remainder(p, |pages|) != 0
    ensures LaidOut(p, AssignMem(p, mem, pages, request, tid), Grown(pages, request, tid))
  {
    hide AssignMem, HoldsPage, HoldsRest;
    NewPageHolds(p, mem, pages, request, tid);
    forall i | 0 <= i < |pages|
      ensures HoldsPage(p, AssignMem(p, mem, pages, request, tid), Grown(pages, request, tid), i)
    {
      assert HoldsPage(p, mem, pages, |pages| - 1);
      OldPageHolds(p, mem, pages, request, tid, i);
    }
  }

  lemma AssignKeepsCell(p: Params, mem: Memory, pages: seq<Owned>, request: Request, tid: int, x: int)
    requires Sensible(p) && LaidOut(p, mem, pages) && Remainder(p, |pages|) != 0
    requires x in mem && mem[x].DataCell? && InSomePayload(p, pages, x, mem[x].len)
    ensures Has(AssignMem(p, mem, pages, request, tid), x, mem[x])
    ensures InSomePayload(p, Grown(pages, request, tid), x, mem[x].len)
  {
    hide AssignMem, PayloadAddr, BlockAddr;
    var len := mem[x].len;
    var i, j :| 0 <= i < |pages| && 0 <= j < |pages[i].sizes| && InPayload(p, i, pages[i].sizes, j, x, len);
    var q := Grown(pages, request, tid);
    assert q[i] == pages[i] && InPayload(p, i, q[i].sizes, j, x, len);
    assert HoldsPage(p, mem, pages, i);
    PayloadPlace(p, i, pages[i], j, x, len);
    PageOrder(p, i, |pages|);
    if i < |pages| - 1 { PageOrder(p, i, |pages| - 1); }
    AssignSurvives(p, mem, pages, request, tid, x, mem[x]);
  }

  lemma AssignOrigin(p: Params, mem: Memory, pages: seq<Owned>, request: Request, tid: int, x: int)
    requires x in AssignMem(p, mem, pages, request, tid) && AssignMem(p, mem, pages, request, tid)[x].DataCell?
    ensures Has(mem, x, AssignMem(p, mem, pages, request, tid)[x])
  {
  }

  lemma AssignKeepsData(p: Params, mem: Memory, pages: seq<Owned>, request: Request, tid: int)
    requires Sensible(p) && LaidOut(p, mem, pages) && DataInside(p, mem, pages) && Remainder(p, |pages|) != 0
    ensures DataInside(p, AssignMem(p, mem, pages, request, tid), Grown(pages, request, tid))
    ensures DataKept(mem, AssignMem(p, mem, pages, request, tid))
  {
    hide AssignMem, LaidOut, InSomePayload;
    var m4, q := AssignMem(p, mem, pages, request, tid), Grown(pages, request, tid);
    forall x | x in mem && mem[x].DataCell?
      ensures Has(m4, x, mem[x]) && InSomePayload(p, q, x, mem[x].len)
    {
      AssignKeepsCell(p, mem, pages, request, tid, x);
    }
    forall x | x in m4 && m4[x].DataCell? ensures InSomePayload(p, q, x, m4[x].len) {
      AssignOrigin(p, mem, pages, request, tid, x);
    }
  }

  /** Assigning a page leaves no two things overlapping. */
  lemma AssignKeepsSolid(p: Params, mem: Memory, pages: seq<Owned>, request: Request, tid: int)
    requires Solid(p, mem)
    ensures Solid(p, AssignMem(p, mem, pages, request, tid))
  {
    hide Write, Solid;
    var q := Grown(pages, request, tid);
    var k := |pages|;
    var b, blk := BlockAddr(p, k, [], 0), ExpectedBlock(p, k, q[k], 0);
    var m1 := Write(p, mem, b, blk);
    WriteKeepsSolid(p, mem, b, blk);
    if Remainder(p, k) == p.pageSize {
      WriteKeepsSolid(p, m1, PageAddr(p, k), ExpectedPage(p, q, k));
    } else {
      var m2 := if k == 0 then m1 else Write(p, m1, PageAddr(p, k - 1), ExpectedPage(p, q, k - 1));
      if k != 0 { WriteKeepsSolid(p, m1, PageAddr(p, k - 1), ExpectedPage(p, q, k - 1)); }
      WriteKeepsSolid(p, m2, PageAddr(p, k), ExpectedPage(p, q, k));
      WriteKeepsSolid(p, Write(p, m2, PageAddr(p, k), ExpectedPage(p, q, k)), PageAddr(p, k + 1), ExpectedRest(p, k + 1));
    }
  }

  // ----- the end of memory

  /** Pages that run past the end of memory have a header there. */
  lemma LaidOutOutside(p: Params, mem: Memory, pages: seq<Owned>)
    requires Sensible(p) && LaidOut(p, mem, pages) && !Within(p, |pages|)
    ensures !Inside(p, mem)
  {
    assert Has(mem, PageAddr(p, |pages|), ExpectedRest(p, |pages|));
  }

  /** While memory is left unassigned, assign_page stays inside physical memory exactly when what is left is
      one page or holds a page and another page header: it does not check. */
  lemma AssignInsideExactly(p: Params, mem: Memory, pages: seq<Owned>, request: Request, tid: int)
    requires Sensible(p) && LaidOut(p, mem, pages) && Inside(p, mem) && Remainder(p, |pages|) != 0
    ensures Inside(p, AssignMem(p, mem, pages, request, tid)) <==>
            Remainder(p, |pages|) == p.pageSize || p.pageSize + p.pageHeader <= Remainder(p, |pages|)
    ensures Inside(p, AssignMem(p, mem, pages, request, tid)) <==> Within(p, |pages| + 1)
  {
    hide Write, LaidOut;
    var q := Grown(pages, request, tid);
    var k := |pages|;
    var b, blk := BlockAddr(p, k, [], 0), ExpectedBlock(p, k, q[k], 0);
    var m1 := Write(p, mem, b, blk);
    if Within(p, k + 1) {
      WriteStaysInside(p, mem, b, blk);
      if Remainder(p, k) == p.pageSize {
        WriteStaysInside(p, m1, PageAddr(p, k), ExpectedPage(p, q, k));
      } else {
        var m2 := if k == 0 then m1 else Write(p, m1, PageAddr(p, k - 1), ExpectedPage(p, q, k - 1));
        if k != 0 { WriteStaysInside(p, m1, PageAddr(p, k - 1), ExpectedPage(p, q, k - 1)); }
        WriteStaysInside(p, m2, PageAddr(p, k), ExpectedPage(p, q, k));
        WriteStaysInside(p, Write(p, m2, PageAddr(p, k), ExpectedPage(p, q, k)), PageAddr(p, k + 1), ExpectedRest(p, k + 1));
      }
    } else {
      AssignKeepsLayout(p, mem, pages, request, tid);
      LaidOutOutside(p, AssignMem(p, mem, pages, request, tid), q);
    }
  }
}
