/**
 * The frame allocator, eviction and mapper of src/mm.c as imperative code
 * over one process: its page table and resident-page list, its RAM device
 * and its active swap device.  Each method is proved equal to the value-level
 * functions of module PagingSpec, where their properties are stated.
 */
module Paging {
  import opened Wrappers
  import opened Config
  import opened Pte
  import opened MemPhy
  import opened AddressSpace
  import opened PagingSpec

  /** The parts of a process control block the memory manager touches. */
  class Pcb {
    const mm: Mm
    const mram: MemPhy
    const activeMswp: MemPhy

    constructor (mm: Mm, mram: MemPhy, activeMswp: MemPhy)
      ensures this.mm == mm && this.mram == mram && this.activeMswp == activeMswp
    {
      this.mm := mm;
      this.mram := mram;
      this.activeMswp := activeMswp;
    }

    /**
     * Two distinct random-access devices (every device the simulator creates
     * is random-access) whose listed frames lie inside their storage, and a
     * page table of MAX_PGN entries.
     */
    ghost predicate Valid()
      reads mm, mram, activeMswp
    {
      && mram != activeMswp && mram.storage != activeMswp.storage
      && mram.Valid() && activeMswp.Valid()
      && mram.rdmflg != 0 && activeMswp.rdmflg != 0
      && mram.FramesInBounds() && activeMswp.FramesInBounds()
      && mm.pgd.Length == MAX_PGN
    }

    /** The allocator's starting state for this process. */
    ghost function AllocStart(): AllocState
      reads mram, activeMswp
    {
      Start(mram.freeList, mram.usedList, activeMswp.freeList)
    }
  }

  /** Two references name different objects (arrays of different element types may still alias). */
  predicate Distinct(a: object, b: object) {
    a != b
  }

  /**
   * dequeue_last_frame: walks to the next-to-last node of the used list,
   * detaches the last node and returns its frame; a one-node list becomes
   * empty.  The head is read unchecked, so the list must not be empty.
   */
  method DequeueLastFrame(mp: MemPhy) returns (fpn: int)
    requires mp.usedList != []
    modifies mp`usedList
    ensures fpn == old(mp.usedList)[|old(mp.usedList)| - 1]
    ensures mp.usedList == old(mp.usedList)[..|old(mp.usedList)| - 1]
  {
    if |mp.usedList| == 1 {
      fpn := mp.usedList[0];
      mp.usedList := [];
      return;
    }
    var pointer := 0;
    while pointer + 2 < |mp.usedList|
      invariant 0 <= pointer <= |mp.usedList| - 2
    {
      pointer := pointer + 1;
    }
    fpn := mp.usedList[pointer + 1];
    mp.usedList := mp.usedList[..pointer + 1];
  }

  /**
   * __swap_cp_page: copies frame srcfpn of one device into frame dstfpn of
   * another, one cell at a time through MEMPHY_read and MEMPHY_write.
   */
  method SwapCpPage(mpsrc: MemPhy, srcfpn: int, mpdst: MemPhy, dstfpn: int) returns (rc: int)
    requires mpsrc.Valid() && mpdst.Valid() && mpsrc.storage != mpdst.storage
    requires mpsrc.rdmflg != 0 && mpdst.rdmflg != 0
    requires CopyInBounds(PageCopy(srcfpn, dstfpn), mpsrc.storage.Length, mpdst.storage.Length)
    modifies mpdst.storage
    ensures rc == 0
    ensures mpdst.storage[..] == CopyPage(old(mpdst.storage[..]), mpsrc.storage[..], PageCopy(srcfpn, dstfpn))
    ensures PageHolds(mpdst.storage[..], dstfpn, mpsrc.storage[..], srcfpn)
    ensures forall j :: 0 <= j < mpdst.storage.Length && !(dstfpn * PAGESZ <= j < dstfpn * PAGESZ + PAGESZ) ==>
      mpdst.storage[j] == old(mpdst.storage[j])
  {
    ghost var src := mpsrc.storage[..];
    ghost var dst := mpdst.storage[..];
    var cellidx := 0;
    while cellidx < PAGESZ
      invariant 0 <= cellidx <= PAGESZ
      invariant mpsrc.storage[..] == src
      invariant forall j :: 0 <= j < mpdst.storage.Length ==>
        mpdst.storage[j] == if dstfpn * PAGESZ <= j < dstfpn * PAGESZ + cellidx
                            then src[srcfpn * PAGESZ + (j - dstfpn * PAGESZ)]
                            else dst[j]
    {
      var addrsrc := srcfpn * PAGESZ + cellidx;
      var addrdst := dstfpn * PAGESZ + cellidx;
      var data: bv8 := 0;
      var _, data' := Read(mpsrc, addrsrc, data);
      var _ := Write(mpdst, addrdst, data');
      cellidx := cellidx + 1;
    }
    assert mpdst.storage[..] == CopyPage(dst, src, PageCopy(srcfpn, dstfpn));
    CopyPageEffect(dst, src, PageCopy(srcfpn, dstfpn));
    rc := 0;
  }

  /**
   * The eviction branch of alloc_pages_range (src/mm.c:186-194) once a swap
   * frame swpfpn has been taken: detach the oldest RAM frame, copy its page
   * into swpfpn, and push swpfpn back onto the swap free list.
   */
  method EvictToSwap(caller: Pcb, swpfpn: int) returns (victim: int)
    requires caller.Valid() && caller.mram.usedList != []
    requires FrameInBounds(swpfpn, caller.activeMswp.storage.Length)
    modifies caller.mram`usedList, caller.activeMswp`freeList, caller.activeMswp.storage
    ensures caller.Valid()
    ensures victim == old(caller.mram.usedList)[|old(caller.mram.usedList)| - 1]
    ensures caller.mram.usedList == old(caller.mram.usedList)[..|old(caller.mram.usedList)| - 1]
    ensures caller.activeMswp.freeList == [swpfpn] + old(caller.activeMswp.freeList)
    ensures CopyInBounds(PageCopy(victim, swpfpn), caller.mram.storage.Length, caller.activeMswp.storage.Length)
    ensures caller.activeMswp.storage[..]
      == CopyPage(old(caller.activeMswp.storage[..]), caller.mram.storage[..], PageCopy(victim, swpfpn))
  {
    var mram := caller.mram;
    var mswp := caller.activeMswp;
    assert mram.usedList[|mram.usedList| - 1] in mram.usedList;
    victim := DequeueLastFrame(mram);
    var _ := SwapCpPage(mram, victim, mswp, swpfpn);
    mswp.freeList := [swpfpn] + mswp.freeList;
  }

  /**
   * One slot of alloc_pages_range (src/mm.c:176-195): a RAM frame when the
   * RAM free list has one, otherwise an eviction into a swap frame when the
   * swap free list has one; the slot is written with the frame's number.
   * The abstract state `cur` tracks the lists and the page copies so far.
   */
  method AllocSlotStep(caller: Pcb, frmLst: array<int>, pgit: nat, ghost cur: AllocState,
                       ghost swapImg: seq<bv8>, ghost ram: seq<bv8>)
    returns (served: bool, ghost next: AllocState)
    requires caller.Valid() && pgit < frmLst.Length
    requires Distinct(frmLst, caller.mram.storage) && Distinct(frmLst, caller.activeMswp.storage)
    requires cur.ramFree == caller.mram.freeList && cur.ramUsed == caller.mram.usedList
    requires cur.swapFree == caller.activeMswp.freeList && CanEvict(cur)
    requires ram == caller.mram.storage[..] && |swapImg| == caller.activeMswp.storage.Length
    requires AllCopiesInBounds(cur.copies, |ram|, |swapImg|)
    requires caller.activeMswp.storage[..] == ApplyCopies(swapImg, ram, cur.copies)
    modifies caller.mram`freeList, caller.mram`usedList, caller.activeMswp`freeList
    modifies caller.activeMswp.storage, frmLst
    ensures caller.Valid() && caller.mram.storage[..] == ram
    ensures served == AllocSlot(cur).Some?
    ensures next == if served then AllocSlot(cur).value else cur
    ensures next.ramFree == caller.mram.freeList && next.ramUsed == caller.mram.usedList
    ensures next.swapFree == caller.activeMswp.freeList
    ensures AllCopiesInBounds(next.copies, |ram|, |swapImg|)
    ensures caller.activeMswp.storage[..] == ApplyCopies(swapImg, ram, next.copies)
    ensures !served ==> frmLst[..] == old(frmLst[..])
    ensures served ==>
      && |next.frames| == |cur.frames| + 1
      && frmLst[..] == old(frmLst[..])[pgit := next.frames[|cur.frames|]]
  {
    var mram := caller.mram;
    var mswp := caller.activeMswp;
    var fpn := 0;
    var rcRam, fpn' := mram.GetFreeFp(fpn);
    if rcRam == 0 {
      frmLst[pgit] := fpn';
      next := cur.(ramFree := cur.ramFree[1..], frames := cur.frames + [fpn']);
      return true, next;
    }
    var rcSwp, swpfpn := mswp.GetFreeFp(fpn');
    if rcSwp != 0 {
      return false, cur;
    }
    assert swpfpn in cur.swapFree;
    var victim := EvictToSwap(caller, swpfpn);
    frmLst[pgit] := victim;
    ghost var c := PageCopy(victim, swpfpn);
    ApplyCopiesSnoc(swapImg, ram, cur.copies, c);
    next := cur.(ramUsed := cur.ramUsed[..|cur.ramUsed| - 1],
                 frames := cur.frames + [victim],
                 copies := cur.copies + [c]);
    served := true;
  }

  /**
   * alloc_pages_range: fills frmLst[0..reqPgnum) slot by slot, from the RAM
   * free list or, once it is empty, by evicting the oldest RAM frame into a
   * swap frame; -1 when neither device can serve a slot.
   */
  method AllocPagesRange(caller: Pcb, reqPgnum: nat, frmLst: array<int>) returns (rc: int)
    requires caller.Valid() && reqPgnum <= frmLst.Length
    requires Distinct(frmLst, caller.mram.storage) && Distinct(frmLst, caller.activeMswp.storage)
    requires Feasible(caller.AllocStart(), reqPgnum)
    modifies caller.mram`freeList, caller.mram`usedList, caller.activeMswp`freeList
    modifies caller.activeMswp.storage, frmLst
    ensures caller.Valid()
    ensures var o := AllocRun(old(caller.AllocStart()), reqPgnum);
      && rc == o.rc
      && caller.mram.freeList == o.state.ramFree
      && caller.mram.usedList == o.state.ramUsed
      && caller.activeMswp.freeList == o.state.swapFree
      && |o.state.frames| <= frmLst.Length
      && frmLst[..|o.state.frames|] == o.state.frames
      && frmLst[|o.state.frames|..] == old(frmLst[..])[|o.state.frames|..]
      && AllCopiesInBounds(o.state.copies, caller.mram.storage.Length, caller.activeMswp.storage.Length)
      && caller.activeMswp.storage[..] == ApplyCopies(old(caller.activeMswp.storage[..]), caller.mram.storage[..], o.state.copies)
  {
    ghost var start := caller.AllocStart();
    ghost var cur := start;
    ghost var swapImg := caller.activeMswp.storage[..];
    ghost var ram := caller.mram.storage[..];
    ghost var lst0 := frmLst[..];
    var pgit := 0;
    while pgit < reqPgnum
      invariant 0 <= pgit <= reqPgnum
      invariant caller.Valid() && caller.mram.storage[..] == ram
      invariant cur.ramFree == caller.mram.freeList && cur.ramUsed == caller.mram.usedList
      invariant cur.swapFree == caller.activeMswp.freeList
      invariant |cur.frames| == pgit && frmLst[..] == cur.frames + lst0[pgit..]
      invariant Feasible(cur, reqPgnum - pgit)
      invariant AllocRun(start, reqPgnum) == AllocRun(cur, reqPgnum - pgit)
      invariant AllCopiesInBounds(cur.copies, |ram|, |swapImg|)
      invariant caller.activeMswp.storage[..] == ApplyCopies(swapImg, ram, cur.copies)
    {
      AllocRunStep(cur, reqPgnum - pgit);
      ghost var before := frmLst[..];
      var served, next := AllocSlotStep(caller, frmLst, pgit, cur, swapImg, ram);
      if !served {
        return -1;
      }
      SlotFilled(before, cur.frames, lst0, pgit, next.frames[pgit]);
      assert next.frames == cur.frames + [next.frames[pgit]];
      cur := next;
      pgit := pgit + 1;
    }
    rc := 0;
  }

  /**
   * One iteration of the loop of vmap_page_range (src/mm.c:126-136): install
   * fpn in entry pgn, push fpn onto the RAM used list and pgn onto fifo_pgn.
   */
  method MapPage(caller: Pcb, pgn: int, fpn: int)
    requires 0 <= pgn < caller.mm.pgd.Length
    modifies caller.mm.pgd, caller.mram`usedList, caller.mm`fifoPgn
    ensures caller.mm.pgd[..] == old(caller.mm.pgd[..])[pgn := PteSetFpn(old(caller.mm.pgd[pgn]), ToWord(fpn)).pte]
    ensures caller.mram.usedList == [fpn] + old(caller.mram.usedList)
    ensures caller.mm.fifoPgn == [pgn] + old(caller.mm.fifoPgn)
  {
    var r := PteSetFpn(caller.mm.pgd[pgn], ToWord(fpn));
    caller.mm.pgd[pgn] := r.pte;
    caller.mram.usedList := [fpn] + caller.mram.usedList;
    caller.mm.fifoPgn := EnlistPgnNode(caller.mm.fifoPgn, pgn);
  }

  /**
   * vmap_page_range: for each of the pgnum pages from addr's page, installs
   * the frame in the page table, pushes the frame onto the RAM used list and
   * the page number onto fifo_pgn, and grows the returned region.
   */
  method VmapPageRange(caller: Pcb, addr: nat, pgnum: nat, frames: array<int>) returns (rc: int, rg: Region)
    requires caller.Valid() && Distinct(frames, caller.mm.pgd)
    requires pgnum <= frames.Length && Pgn(addr) + pgnum <= MAX_PGN
    modifies caller.mm.pgd, caller.mram`usedList, caller.mm`fifoPgn
    ensures rc == 0
    ensures caller.mm.pgd[..] == MapPages(old(caller.mm.pgd[..]), Pgn(addr), frames[..pgnum])
    ensures caller.mram.usedList == Reversed(frames[..pgnum]) + old(caller.mram.usedList)
    ensures caller.mm.fifoPgn == Reversed(PageRange(Pgn(addr), pgnum)) + old(caller.mm.fifoPgn)
    ensures rg == MappedRegion(addr, pgnum)
  {
    ghost var pgd0 := caller.mm.pgd[..];
    ghost var used0 := caller.mram.usedList;
    ghost var fifo0 := caller.mm.fifoPgn;
    ghost var fr := frames[..pgnum];
    var pgit := 0;
    var pgn := Pgn(addr);
    rg := Region(addr, addr);
    while pgit < pgnum
      invariant 0 <= pgit <= pgnum
      invariant caller.mm.pgd.Length == MAX_PGN && frames[..pgnum] == fr
      invariant caller.mm.pgd[..] == MapPages(pgd0, pgn, fr[..pgit])
      invariant caller.mram.usedList == Reversed(fr[..pgit]) + used0
      invariant caller.mm.fifoPgn == Reversed(PageRange(pgn, pgit)) + fifo0
      invariant rg == Region(addr, addr + pgit * (PAGESZ - 1))
    {
      MapPagesStep(pgd0, pgn, fr, pgit);
      MapListsStep(fr, pgn, pgit, used0, fifo0);
      MapPage(caller, pgn + pgit, frames[pgit]);
      rg := rg.(rgEnd := rg.rgEnd + PAGESZ - 1);
      pgit := pgit + 1;
    }
    assert fr[..pgit] == fr;
    rc := 0;
  }

  /**
   * vm_map_ram: allocates incpgnum frames and, only when that succeeds,
   * maps them at mapstart; on failure it returns -1 and leaves the page
   * table, fifo_pgn and the returned region alone.
   */
  method VmMapRam(caller: Pcb, astart: int, aend: int, mapstart: nat, incpgnum: nat, rg: Region)
    returns (rc: int, rg': Region)
    requires caller.Valid()
    requires Pgn(mapstart) + incpgnum <= MAX_PGN
    requires Feasible(caller.AllocStart(), incpgnum)
    modifies caller.mram`freeList, caller.mram`usedList, caller.activeMswp`freeList
    modifies caller.activeMswp.storage, caller.mm.pgd, caller.mm`fifoPgn
    ensures caller.Valid()
    ensures var o := AllocRun(old(caller.AllocStart()), incpgnum);
      && caller.mram.freeList == o.state.ramFree
      && caller.activeMswp.freeList == o.state.swapFree
      && AllCopiesInBounds(o.state.copies, caller.mram.storage.Length, caller.activeMswp.storage.Length)
      && caller.activeMswp.storage[..] == ApplyCopies(old(caller.activeMswp.storage[..]), caller.mram.storage[..], o.state.copies)
    ensures var o := AllocRun(old(caller.AllocStart()), incpgnum);
      o.rc != 0 ==>
        && rc == -1 && rg' == rg
        && caller.mram.usedList == o.state.ramUsed
        && caller.mm.pgd[..] == old(caller.mm.pgd[..])
        && caller.mm.fifoPgn == old(caller.mm.fifoPgn)
    ensures var o := AllocRun(old(caller.AllocStart()), incpgnum);
      o.rc == 0 ==>
        && rc == 0 && rg' == MappedRegion(mapstart, incpgnum)
        && |o.state.frames| == incpgnum
        && caller.mram.usedList == Reversed(o.state.frames) + o.state.ramUsed
        && caller.mm.pgd[..] == MapPages(old(caller.mm.pgd[..]), Pgn(mapstart), o.state.frames)
        && caller.mm.fifoPgn == Reversed(PageRange(Pgn(mapstart), incpgnum)) + old(caller.mm.fifoPgn)
  {
    ghost var start := caller.AllocStart();
    ghost var o := AllocRun(start, incpgnum);
    AllocRunResult(start, incpgnum);
    AllocRunKeepsFramesInBounds(start, incpgnum, caller.mram.storage.Length);
    var frmLst := new int[incpgnum];
    var retAlloc := AllocPagesRange(caller, incpgnum, frmLst);
    if retAlloc < 0 && retAlloc != -3000 {
      return -1, rg;
    }
    if retAlloc == -3000 {
      return -1, rg;
    }
    assert o.rc == 0 && frmLst[..incpgnum] == o.state.frames;
    rc, rg' := VmapPageRange(caller, mapstart, incpgnum, frmLst);
  }
}
