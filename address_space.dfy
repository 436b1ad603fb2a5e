/**
 * Address-space bootstrap and list-prepend helpers (src/mm.c:297-360) and
 * the records they build (include/os-mm.h:11-57).  Linked lists are
 * sequences, head first.
 */
module AddressSpace {
  import opened Config

  /** vm_rg_struct: a byte range; its rg_next link is its place in a list. */
  datatype Region = Region(rgStart: int, rgEnd: int)

  /** init_vm_rg: a new region node holding [rgStart, rgEnd] and no successor. */
  function InitVmRg(rgStart: int, rgEnd: int): (r: Region)
    ensures r.rgStart == rgStart && r.rgEnd == rgEnd
  {
    Region(rgStart, rgEnd)
  }

  /** enlist_vm_rg_node: the list with the node as its new head. */
  function EnlistVmRgNode(rglist: seq<Region>, rgnode: Region): (r: seq<Region>)
    ensures |r| == |rglist| + 1
    ensures r[0] == rgnode && r[1..] == rglist
  {
    [rgnode] + rglist
  }

  /** enlist_pgn_node: the page-number list with pgn as its new head. */
  function EnlistPgnNode(plist: seq<int>, pgn: int): (r: seq<int>)
    ensures |r| == |plist| + 1
    ensures r[0] == pgn && r[1..] == plist
  {
    [pgn] + plist
  }

  /** vm_area_struct: one virtual memory area of an address space. */
  class VmArea {
    var vmId: int
    var vmStart: int
    var vmEnd: int
    var sbrk: int
    var vmMm: Mm?
    var vmFreergList: seq<Region>
    var vmNext: VmArea?

    /** A freshly allocated, not yet filled-in area. */
    constructor ()
      ensures vmMm == null && vmNext == null && vmFreergList == []
    {
      vmId := 0;
      vmStart, vmEnd, sbrk := 0, 0, 0;
      vmMm := null;
      vmFreergList := [];
      vmNext := null;
    }
  }

  /** mm_struct: a page table, the area list and the resident-page history. */
  class Mm {
    var pgd: array<bv32>
    var mmap: VmArea?
    var fifoPgn: seq<int>

    /** A freshly allocated, not yet initialised mm. */
    constructor ()
      ensures mmap == null && fifoPgn == []
    {
      pgd := new bv32[0];
      mmap := null;
      fifoPgn := [];
    }

    /**
     * init_mm: a new page table of MAX_PGN entries and one area, id 1, with
     * start = end = sbrk = 0, whose free-region list is the single region
     * [0, 0], with no successor and a back-pointer to this mm.  The
     * resident-page history is not touched.
     */
    method InitMm() returns (rc: int)
      modifies this
      ensures rc == 0
      ensures fresh(pgd) && pgd.Length == MAX_PGN
      ensures mmap != null && fresh(mmap)
      ensures mmap.vmId == 1 && mmap.vmStart == 0 && mmap.vmEnd == 0 && mmap.sbrk == 0
      ensures mmap.vmFreergList == [Region(0, 0)]
      ensures mmap.vmNext == null && mmap.vmMm == this
      ensures fifoPgn == old(fifoPgn)
    {
      var vma := new VmArea();
      pgd := new bv32[MAX_PGN];
      vma.vmId := 1;
      vma.vmStart := 0;
      vma.vmEnd := vma.vmStart;
      vma.sbrk := vma.vmStart;
      var firstRg := InitVmRg(vma.vmStart, vma.vmEnd);
      vma.vmFreergList := EnlistVmRgNode(vma.vmFreergList, firstRg);
      vma.vmNext := null;
      vma.vmMm := this;
      mmap := vma;
      rc := 0;
    }
  }
}
