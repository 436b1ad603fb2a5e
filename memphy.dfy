/**
 * Physical storage device (src/mm-memphy.c): a byte store split into
 * PAGESZ-byte frames, with a free-frame stack and a used-frame list.
 * The linked frame lists are sequences of frame numbers, head first.
 */
module MemPhy {
  import opened Config

  /** The frame numbers 0, 1, ..., n-1 in ascending order. */
  function FrameRange(n: nat): (r: seq<int>)
    ensures |r| == n
    ensures forall i :: 0 <= i < n ==> r[i] == i
  {
    seq(n, i => i)
  }

  /** The free list MEMPHY_format builds holds every frame below n exactly once. */
  lemma {:induction false} FrameRangeOnce(n: nat, f: int)
    ensures multiset(FrameRange(n))[f] == if 0 <= f < n then 1 else 0
  {
    if n > 0 {
      FrameRangeOnce(n - 1, f);
      assert FrameRange(n) == FrameRange(n - 1) + [n - 1];
    }
  }

  /** Formatting with PAGESZ only lists frames that fit in the storage. */
  lemma FrameRangeInBounds(len: nat)
    ensures forall f :: f in FrameRange(len / PAGESZ) ==> FrameInBounds(f, len)
  {
    forall f | f in FrameRange(len / PAGESZ)
      ensures FrameInBounds(f, len)
    {
      assert 0 <= f < len / PAGESZ;
      assert (f + 1) * PAGESZ <= (len / PAGESZ) * PAGESZ;
    }
  }

  /** What MEMPHY_get_freefp yields: the return code, the frame and the remaining list. */
  datatype Pop = Pop(rc: int, fpn: int, rest: seq<int>)

  /** The free-list pop of MEMPHY_get_freefp; `retfpn` is what the out cell held. */
  function FreeListPop(list: seq<int>, retfpn: int): (r: Pop)
    ensures list == [] ==> r == Pop(-1, retfpn, [])
    ensures list != [] ==> r.rc == 0 && [r.fpn] + r.rest == list
  {
    if list == [] then Pop(-1, retfpn, list) else Pop(0, list[0], list[1..])
  }

  /** The free-list push of MEMPHY_put_freefp. */
  function FreeListPush(list: seq<int>, fpn: int): (r: seq<int>)
    ensures |r| == |list| + 1 && r[0] == fpn && r[1..] == list
  {
    [fpn] + list
  }

  /** Putting a frame and getting one returns that frame and restores the list (LIFO). */
  lemma PutThenGet(list: seq<int>, fpn: int, retfpn: int)
    ensures FreeListPop(FreeListPush(list, fpn), retfpn) == Pop(0, fpn, list)
  {
  }

  /** Getting a frame and putting it back restores the list. */
  lemma GetThenPut(list: seq<int>, retfpn: int)
    requires list != []
    ensures var p := FreeListPop(list, retfpn); FreeListPush(p.rest, p.fpn) == list
  {
  }

  /**
   * The cursor after `steps` single steps from 0, each step moving it one
   * cell forward modulo the device size (the loop body of MEMPHY_mv_csr).
   */
  function CursorWalk(steps: nat, maxsz: int): int
    requires maxsz > 0
  {
    if steps == 0 then 0 else CursorStep(CursorWalk(steps - 1, maxsz), maxsz)
  }

  /** One step of the cursor: forward one cell, wrapping at the device size. */
  function CursorStep(cursor: int, maxsz: int): int
    requires maxsz > 0
  {
    (cursor + 1) % maxsz
  }

  /** Walking at most one full turn from 0 ends at the number of steps, or back at 0 after a full turn. */
  lemma {:induction false} CursorWalkClosedForm(steps: nat, maxsz: int)
    requires 0 < maxsz && steps <= maxsz
    ensures CursorWalk(steps, maxsz) == if steps == maxsz then 0 else steps
  {
    if steps > 0 {
      CursorWalkClosedForm(steps - 1, maxsz);
      CursorStepWithinTurn(steps - 1, maxsz);
    }
  }

  lemma CursorStepWithinTurn(cursor: nat, maxsz: int)
    requires cursor < maxsz
    ensures CursorStep(cursor, maxsz) == if cursor + 1 == maxsz then 0 else cursor + 1
  {
  }

  /** The number of steps MEMPHY_mv_csr takes: the loop stops at `offset` or at `maxsz`. */
  function CursorSteps(offset: int, maxsz: int): (n: nat)
    ensures n <= offset || n == 0
    ensures maxsz > 0 ==> n <= maxsz
  {
    if offset <= 0 || maxsz <= 0 then 0 else if offset < maxsz then offset else maxsz
  }

  class MemPhy {
    var storage: array<bv8>
    var maxsz: int
    var rdmflg: int
    var cursor: int
    var freeList: seq<int>
    var usedList: seq<int>

    /** The storage holds exactly maxsz bytes (init_memphy allocates it so). */
    ghost predicate Valid()
      reads this
    {
      storage.Length == maxsz
    }

    /** Every frame on the free and the used list lies inside the storage. */
    ghost predicate FramesInBounds()
      reads this
    {
      && (forall f :: f in freeList ==> FrameInBounds(f, storage.Length))
      && (forall f :: f in usedList ==> FrameInBounds(f, storage.Length))
    }

    /**
     * init_memphy: allocates maxSize bytes, formats them into PAGESZ frames,
     * normalises the access flag to 0/1 and, for a sequential device, resets
     * the cursor.  The lists the C code leaves uninitialised start empty here.
     */
    constructor (maxSize: int, randomflg: int)
      requires maxSize >= 0
      ensures Valid() && FramesInBounds() && fresh(storage)
      ensures maxsz == maxSize
      ensures rdmflg == (if randomflg != 0 then 1 else 0)
      ensures rdmflg == 0 ==> cursor == 0
      ensures freeList == FrameRange(maxSize / PAGESZ)
      ensures usedList == []
    {
      storage := new bv8[maxSize];
      maxsz := maxSize;
      rdmflg := 0;
      cursor := 0;
      freeList := [];
      usedList := [];
      new;
      var _ := Format(PAGESZ);
      FrameRangeInBounds(maxSize);
      rdmflg := if randomflg != 0 then 1 else 0;
      if rdmflg == 0 {
        cursor := 0;
      }
    }

    /**
     * MEMPHY_mv_csr: resets the cursor and steps it forward one cell at a
     * time, at most `offset` and at most `maxsz` times.
     */
    method MvCsr(offset: int) returns (rc: int, ghost steps: nat)
      modifies this`cursor
      ensures rc == 0
      ensures steps == CursorSteps(offset, maxsz)
      ensures maxsz > 0 ==> cursor == CursorWalk(steps, maxsz)
      ensures cursor == if 0 < offset < maxsz then offset else 0
    {
      var numstep := 0;
      cursor := 0;
      while numstep < offset && numstep < maxsz
        invariant 0 <= numstep
        invariant numstep == 0 || (numstep <= offset && numstep <= maxsz)
        invariant maxsz > 0 ==> cursor == CursorWalk(numstep, maxsz)
        invariant maxsz <= 0 ==> cursor == 0 && numstep == 0
        decreases maxsz - numstep
      {
        cursor := CursorStep(cursor, maxsz);
        numstep := numstep + 1;
      }
      steps := numstep;
      if maxsz > 0 {
        CursorWalkClosedForm(steps, maxsz);
      }
      rc := 0;
    }

    /**
     * MEMPHY_format: splits the storage into maxsz / pagesz frames and sets
     * the free list to 0, 1, ..., numfp-1; with no whole frame it fails.
     */
    method Format(pagesz: int) returns (rc: int)
      requires pagesz != 0
      modifies this`freeList
      ensures CDiv(maxsz, pagesz) <= 0 ==> rc == -1 && freeList == old(freeList)
      ensures CDiv(maxsz, pagesz) > 0 ==> rc == 0 && freeList == FrameRange(CDiv(maxsz, pagesz))
    {
      var numfp := CDiv(maxsz, pagesz);
      if numfp <= 0 {
        return -1;
      }
      var iter := 0;
      freeList := [iter];
      iter := 1;
      while iter < numfp
        invariant 1 <= iter <= numfp
        invariant freeList == FrameRange(iter)
      {
        freeList := freeList + [iter];
        iter := iter + 1;
      }
      rc := 0;
    }

    /** MEMPHY_get_freefp: pops the head of the free list into the out cell. */
    method GetFreeFp(retfpn: int) returns (rc: int, retfpn': int)
      modifies this`freeList
      ensures Pop(rc, retfpn', freeList) == FreeListPop(old(freeList), retfpn)
      ensures old(freeList) == [] ==> rc == -1 && retfpn' == retfpn
      ensures old(freeList) != [] ==> rc == 0 && retfpn' == old(freeList)[0] && freeList == old(freeList)[1..]
    {
      if freeList == [] {
        return -1, retfpn;
      }
      retfpn' := freeList[0];
      freeList := freeList[1..];
      rc := 0;
    }

    /** MEMPHY_put_freefp: pushes a frame number onto the free list. */
    method PutFreeFp(fpn: int) returns (rc: int)
      modifies this`freeList
      ensures rc == 0
      ensures freeList == FreeListPush(old(freeList), fpn)
    {
      freeList := [fpn] + freeList;
      rc := 0;
    }
  }

  /**
   * MEMPHY_seq_read as written: a missing device and a device whose rdmflg
   * is 0 both fail, so only random-access devices get through; those walk
   * the cursor to addr and read storage[addr].
   */
  method SeqRead(mp: MemPhy?, addr: int, value: bv8) returns (rc: int, value': bv8)
    requires mp != null ==> mp.Valid()
    requires mp != null && mp.rdmflg != 0 ==> 0 <= addr < mp.storage.Length
    modifies if mp != null && mp.rdmflg != 0 then {mp} else {}
    ensures mp == null ==> rc == -1 && value' == value
    ensures mp != null ==> mp.storage == old(mp.storage) && mp.rdmflg == old(mp.rdmflg) && mp.maxsz == old(mp.maxsz)
    ensures mp != null ==> mp.freeList == old(mp.freeList) && mp.usedList == old(mp.usedList)
    ensures mp != null && mp.rdmflg == 0 ==> rc == -1 && value' == value
    ensures mp != null && mp.rdmflg != 0 ==>
      rc == 0 && value' == mp.storage[addr] && mp.cursor == (if 0 < addr < mp.maxsz then addr else 0)
  {
    if mp == null {
      return -1, value;
    }
    if mp.rdmflg == 0 {
      return -1, value;
    }
    var _, _ := mp.MvCsr(addr);
    value' := mp.storage[addr];
    rc := 0;
  }

  /**
   * MEMPHY_read: a random-access device returns storage[addr]; any other
   * device goes through MEMPHY_seq_read, which rejects it.
   */
  method Read(mp: MemPhy?, addr: int, value: bv8) returns (rc: int, value': bv8)
    requires mp != null ==> mp.Valid()
    requires mp != null && mp.rdmflg != 0 ==> 0 <= addr < mp.storage.Length
    ensures mp == null ==> rc == -1 && value' == value
    ensures mp != null && mp.rdmflg != 0 ==> rc == 0 && value' == mp.storage[addr]
    ensures mp != null && mp.rdmflg == 0 ==> rc == -1 && value' == value
  {
    if mp == null {
      return -1, value;
    }
    if mp.rdmflg != 0 {
      value' := mp.storage[addr];
    } else {
      rc, value' := SeqRead(mp, addr, value);
      return;
    }
    rc := 0;
  }

  /**
   * MEMPHY_seq_write as written: like MEMPHY_seq_read it rejects a missing
   * device and every device whose rdmflg is 0.
   */
  method SeqWrite(mp: MemPhy?, addr: int, value: bv8) returns (rc: int)
    requires mp != null ==> mp.Valid()
    requires mp != null && mp.rdmflg != 0 ==> 0 <= addr < mp.storage.Length
    modifies if mp != null && mp.rdmflg != 0 then {mp, mp.storage} else {}
    ensures mp == null ==> rc == -1
    ensures mp != null ==> mp.storage == old(mp.storage) && mp.rdmflg == old(mp.rdmflg) && mp.maxsz == old(mp.maxsz)
    ensures mp != null ==> mp.freeList == old(mp.freeList) && mp.usedList == old(mp.usedList)
    ensures mp != null && mp.rdmflg == 0 ==> rc == -1
    ensures mp != null && mp.rdmflg != 0 ==>
      && rc == 0
      && mp.storage[..] == old(mp.storage[..])[addr := value]
      && mp.cursor == (if 0 < addr < mp.maxsz then addr else 0)
  {
    if mp == null {
      return -1;
    }
    if mp.rdmflg == 0 {
      return -1;
    }
    var _, _ := mp.MvCsr(addr);
    mp.storage[addr] := value;
    rc := 0;
  }

  /**
   * MEMPHY_write: a random-access device stores data at addr and nothing
   * else changes; any other device goes through MEMPHY_seq_write and fails.
   */
  method Write(mp: MemPhy?, addr: int, data: bv8) returns (rc: int)
    requires mp != null ==> mp.Valid()
    requires mp != null && mp.rdmflg != 0 ==> 0 <= addr < mp.storage.Length
    modifies if mp != null && mp.rdmflg != 0 then {mp.storage} else {}
    ensures mp == null ==> rc == -1
    ensures mp != null && mp.rdmflg != 0 ==> rc == 0 && mp.storage[..] == old(mp.storage[..])[addr := data]
    ensures mp != null && mp.rdmflg == 0 ==> rc == -1 && mp.storage[..] == old(mp.storage[..])
  {
    if mp == null {
      return -1;
    }
    if mp.rdmflg != 0 {
      mp.storage[addr] := data;
    } else {
      rc := SeqWrite(mp, addr, data);
      return;
    }
    rc := 0;
  }

  /**
   * A freshly created sequential device (randomflg 0) cannot be read: the
   * read is dispatched to MEMPHY_seq_read, whose mode test turns it away.
   */
  method SequentialDeviceUnreadable() returns (rc: int)
    ensures rc == -1
  {
    var mp := new MemPhy(PAGESZ, 0);
    var value;
    rc, value := Read(mp, 0, 0);
  }

  /**
   * MEMPHY_seq_read as evidently intended: only a sequential device (rdmflg
   * 0) is served sequentially, by walking the cursor to addr first.
   */
  method SeqReadIntended(mp: MemPhy?, addr: int, value: bv8) returns (rc: int, value': bv8)
    requires mp != null ==> mp.Valid()
    requires mp != null && mp.rdmflg == 0 ==> 0 <= addr < mp.storage.Length
    modifies if mp != null && mp.rdmflg == 0 then {mp} else {}
    ensures mp == null ==> rc == -1 && value' == value
    ensures mp != null ==> mp.storage == old(mp.storage) && mp.rdmflg == old(mp.rdmflg) && mp.maxsz == old(mp.maxsz)
    ensures mp != null ==> mp.freeList == old(mp.freeList) && mp.usedList == old(mp.usedList)
    ensures mp != null && mp.rdmflg != 0 ==> rc == -1 && value' == value
    ensures mp != null && mp.rdmflg == 0 ==>
      rc == 0 && value' == mp.storage[addr] && mp.cursor == (if 0 < addr < mp.maxsz then addr else 0)
  {
    if mp == null {
      return -1, value;
    }
    if mp.rdmflg != 0 {
      return -1, value;
    }
    var _, _ := mp.MvCsr(addr);
    value' := mp.storage[addr];
    rc := 0;
  }

  /** MEMPHY_read over the intended sequential helper: every device in range is readable. */
  method ReadIntended(mp: MemPhy?, addr: int, value: bv8) returns (rc: int, value': bv8)
    requires mp != null ==> mp.Valid() && 0 <= addr < mp.storage.Length
    modifies if mp != null && mp.rdmflg == 0 then {mp} else {}
    ensures mp == null ==> rc == -1 && value' == value
    ensures mp != null ==> rc == 0 && value' == old(mp.storage[addr]) && mp.storage == old(mp.storage)
    ensures mp != null ==> mp.rdmflg == old(mp.rdmflg) && mp.maxsz == old(mp.maxsz)
    ensures mp != null ==> mp.freeList == old(mp.freeList) && mp.usedList == old(mp.usedList)
    ensures mp != null && mp.rdmflg != 0 ==> mp.cursor == old(mp.cursor)
    ensures mp != null && mp.rdmflg == 0 ==> mp.cursor == (if 0 < addr < mp.maxsz then addr else 0)
  {
    if mp == null {
      return -1, value;
    }
    if mp.rdmflg != 0 {
      value' := mp.storage[addr];
    } else {
      rc, value' := SeqReadIntended(mp, addr, value);
      return;
    }
    rc := 0;
  }

  /**
   * MEMPHY_seq_write as evidently intended: only a sequential device is
   * written sequentially, by walking the cursor to addr first.
   */
  method SeqWriteIntended(mp: MemPhy?, addr: int, value: bv8) returns (rc: int)
    requires mp != null ==> mp.Valid()
    requires mp != null && mp.rdmflg == 0 ==> 0 <= addr < mp.storage.Length
    modifies if mp != null && mp.rdmflg == 0 then {mp, mp.storage} else {}
    ensures mp == null ==> rc == -1
    ensures mp != null ==> mp.storage == old(mp.storage) && mp.rdmflg == old(mp.rdmflg) && mp.maxsz == old(mp.maxsz)
    ensures mp != null ==> mp.freeList == old(mp.freeList) && mp.usedList == old(mp.usedList)
    ensures mp != null && mp.rdmflg != 0 ==> rc == -1
    ensures mp != null && mp.rdmflg == 0 ==>
      && rc == 0
      && mp.storage[..] == old(mp.storage[..])[addr := value]
      && mp.cursor == (if 0 < addr < mp.maxsz then addr else 0)
  {
    if mp == null {
      return -1;
    }
    if mp.rdmflg != 0 {
      return -1;
    }
    var _, _ := mp.MvCsr(addr);
    mp.storage[addr] := value;
    rc := 0;
  }

  /** MEMPHY_write over the intended sequential helper: every device in range is writable. */
  method WriteIntended(mp: MemPhy?, addr: int, data: bv8) returns (rc: int)
    requires mp != null ==> mp.Valid() && 0 <= addr < mp.storage.Length
    modifies if mp != null then {mp.storage} else {}
    modifies if mp != null && mp.rdmflg == 0 then {mp} else {}
    ensures mp == null ==> rc == -1
    ensures mp != null ==> rc == 0 && mp.storage == old(mp.storage) && mp.storage[..] == old(mp.storage[..])[addr := data]
    ensures mp != null ==> mp.rdmflg == old(mp.rdmflg) && mp.maxsz == old(mp.maxsz)
    ensures mp != null ==> mp.freeList == old(mp.freeList) && mp.usedList == old(mp.usedList)
    ensures mp != null && mp.rdmflg != 0 ==> mp.cursor == old(mp.cursor)
    ensures mp != null && mp.rdmflg == 0 ==> mp.cursor == (if 0 < addr < mp.maxsz then addr else 0)
  {
    if mp == null {
      return -1;
    }
    if mp.rdmflg != 0 {
      mp.storage[addr] := data;
    } else {
      rc := SeqWriteIntended(mp, addr, data);
      return;
    }
    rc := 0;
  }
}
