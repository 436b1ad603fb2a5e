/**
 * Page-table-entry codec (src/mm.c:20-94).
 *
 * A page-table entry is one 32-bit word.  The masks live in mm.h, which is
 * not part of this model; the layout chosen here keeps every field disjoint:
 *
 *   bit 31 PRESENT, bit 30 SWAPPED, bit 28 DIRTY,
 *   bits 0-12 FPN, bits 13-17 SWPTYP, bits 18-27 SWPOFF.
 *
 * The C setters take `int` field values and shift them inside a 32-bit word;
 * the model takes each value as its 32-bit two's-complement pattern.
 */
module Pte {
  const PRESENT_MASK: bv32 := 0x8000_0000
  const SWAPPED_MASK: bv32 := 0x4000_0000
  const DIRTY_MASK: bv32 := 0x1000_0000

  const FPN_LOBIT: bv32 := 0
  const FPN_MASK: bv32 := 0x0000_1FFF
  const SWPTYP_LOBIT: bv32 := 13
  const SWPTYP_MASK: bv32 := 0x0003_E000
  const SWPOFF_LOBIT: bv32 := 18
  const SWPOFF_MASK: bv32 := 0x0FFC_0000

  /** Largest value each field can hold. */
  const FPN_MAX: bv32 := 0x1FFF
  const SWPTYP_MAX: bv32 := 0x1F
  const SWPOFF_MAX: bv32 := 0x3FF

  /** The bits each setter may write. */
  const FPN_TOUCHED: bv32 := PRESENT_MASK | SWAPPED_MASK | FPN_MASK
  const SWAP_TOUCHED: bv32 := PRESENT_MASK | SWAPPED_MASK | SWPTYP_MASK | SWPOFF_MASK

  // The SETBIT, CLRBIT and SETVAL / GETVAL macros.
  function SetBit(v: bv32, mask: bv32): bv32 { v | mask }
  function ClrBit(v: bv32, mask: bv32): bv32 { v & !mask }
  function SetVal(v: bv32, value: bv32, mask: bv32, lobit: bv32): bv32
    requires lobit < 32
  {
    (v & !mask) | ((value << lobit) & mask)
  }
  function GetVal(v: bv32, mask: bv32, lobit: bv32): bv32
    requires lobit < 32
  {
    (v & mask) >> lobit
  }

  // Decoding an entry.
  predicate IsPresent(w: bv32) { w & PRESENT_MASK != 0 }
  predicate IsSwapped(w: bv32) { w & SWAPPED_MASK != 0 }
  predicate IsDirty(w: bv32) { w & DIRTY_MASK != 0 }
  function Fpn(w: bv32): bv32 { GetVal(w, FPN_MASK, FPN_LOBIT) }
  function SwpTyp(w: bv32): bv32 { GetVal(w, SWPTYP_MASK, SWPTYP_LOBIT) }
  function SwpOff(w: bv32): bv32 { GetVal(w, SWPOFF_MASK, SWPOFF_LOBIT) }

  /** `a` and `b` agree on every bit outside `touched`. */
  predicate SameOutside(a: bv32, b: bv32, touched: bv32) {
    a & !touched == b & !touched
  }

  /** The C return code together with the entry after the call. */
  datatype PteResult = PteResult(rc: int, pte: bv32)

  /** init_pte's present, non-swapped branch (src/mm.c:34-38). */
  function InitResidentWord(pte: bv32, fpn: bv32): (w: bv32)
    ensures IsPresent(w) && !IsSwapped(w) && !IsDirty(w)
    ensures Fpn(w) == fpn & FPN_MAX
    ensures SameOutside(w, pte, FPN_TOUCHED | DIRTY_MASK)
  {
    var w := ClrBit(ClrBit(SetBit(pte, PRESENT_MASK), SWAPPED_MASK), DIRTY_MASK);
    SetVal(w, fpn, FPN_MASK, FPN_LOBIT)
  }

  /** The two SETVAL calls that store a swap location. */
  function SetSwapLocation(w: bv32, swptyp: bv32, swpoff: bv32): (r: bv32)
    ensures SwpTyp(r) == swptyp & SWPTYP_MAX && SwpOff(r) == swpoff & SWPOFF_MAX
    ensures SameOutside(r, w, SWPTYP_MASK | SWPOFF_MASK)
  {
    SetVal(SetVal(w, swptyp, SWPTYP_MASK, SWPTYP_LOBIT), swpoff, SWPOFF_MASK, SWPOFF_LOBIT)
  }

  /** init_pte's present, swapped branch (src/mm.c:40-45). */
  function InitSwappedWord(pte: bv32, swptyp: bv32, swpoff: bv32): (w: bv32)
    ensures IsPresent(w) && IsSwapped(w) && !IsDirty(w)
    ensures SwpTyp(w) == swptyp & SWPTYP_MAX && SwpOff(w) == swpoff & SWPOFF_MAX
    ensures SameOutside(w, pte, SWAP_TOUCHED | DIRTY_MASK)
  {
    SetSwapLocation(ClrBit(SetBit(SetBit(pte, PRESENT_MASK), SWAPPED_MASK), DIRTY_MASK), swptyp, swpoff)
  }

  /**
   * init_pte: a present, non-swapped entry needs a non-zero FPN (else -1 and
   * the entry is left alone); a present, swapped entry stores the swap type
   * and offset; a non-present request changes nothing.  DIRTY is cleared on
   * every write and the `drt` argument is never read.
   */
  function InitPte(pte: bv32, pre: int, fpn: bv32, drt: int, swp: int, swptyp: bv32, swpoff: bv32): (r: PteResult)
    ensures pre == 0 ==> r == PteResult(0, pte)
    ensures pre != 0 && swp == 0 && fpn == 0 ==> r == PteResult(-1, pte)
    ensures pre != 0 && swp == 0 && fpn != 0 ==>
      && r.rc == 0
      && IsPresent(r.pte) && !IsSwapped(r.pte) && !IsDirty(r.pte)
      && Fpn(r.pte) == fpn & FPN_MAX
      && SameOutside(r.pte, pte, FPN_TOUCHED | DIRTY_MASK)
    ensures pre != 0 && swp != 0 ==>
      && r.rc == 0
      && IsPresent(r.pte) && IsSwapped(r.pte) && !IsDirty(r.pte)
      && SwpTyp(r.pte) == swptyp & SWPTYP_MAX
      && SwpOff(r.pte) == swpoff & SWPOFF_MAX
      && SameOutside(r.pte, pte, SWAP_TOUCHED | DIRTY_MASK)
  {
    if pre != 0 then
      if swp == 0 then
        if fpn == 0 then PteResult(-1, pte) else PteResult(0, InitResidentWord(pte, fpn))
      else
        PteResult(0, InitSwappedWord(pte, swptyp, swpoff))
    else
      PteResult(0, pte)
  }

  /** The dirty argument of init_pte never influences its outcome. */
  lemma InitPteIgnoresDirty(pte: bv32, pre: int, fpn: bv32, d1: int, d2: int, swp: int, swptyp: bv32, swpoff: bv32)
    ensures InitPte(pte, pre, fpn, d1, swp, swptyp, swpoff) == InitPte(pte, pre, fpn, d2, swp, swptyp, swpoff)
  {
  }

  /**
   * pte_set_swap: the entry becomes present and swapped, holding the swap type
   * and offset; DIRTY, FPN and the spare bits are kept.  Always returns 0.
   */
  function PteSetSwap(pte: bv32, swptyp: bv32, swpoff: bv32): (r: PteResult)
    ensures r.rc == 0
    ensures IsPresent(r.pte) && IsSwapped(r.pte)
    ensures SwpTyp(r.pte) == swptyp & SWPTYP_MAX && SwpOff(r.pte) == swpoff & SWPOFF_MAX
    ensures SameOutside(r.pte, pte, SWAP_TOUCHED)
  {
    PteResult(0, SetSwapLocation(SetBit(SetBit(pte, PRESENT_MASK), SWAPPED_MASK), swptyp, swpoff))
  }

  /** pte_set_swap keeps the DIRTY bit and the FPN field. */
  lemma PteSetSwapKeepsDirtyAndFpn(pte: bv32, swptyp: bv32, swpoff: bv32)
    ensures var w := PteSetSwap(pte, swptyp, swpoff).pte;
      IsDirty(w) == IsDirty(pte) && Fpn(w) == Fpn(pte)
  {
  }

  /** Two SETVALs into the swap fields give the same word from words that agree outside them. */
  lemma SwapFieldsOverwrite(x: bv32, y: bv32, kt: bv32, ko: bv32)
    requires x & !(SWPTYP_MASK | SWPOFF_MASK) == y & !(SWPTYP_MASK | SWPOFF_MASK)
    ensures (((x & !SWPTYP_MASK) | kt) & !SWPOFF_MASK) | ko == (((y & !SWPTYP_MASK) | kt) & !SWPOFF_MASK) | ko
  {
  }

  /** pte_set_swap reads only the bits it leaves alone. */
  lemma PteSetSwapDetermined(a: bv32, b: bv32, swptyp: bv32, swpoff: bv32)
    requires SameOutside(a, b, SWAP_TOUCHED)
    ensures PteSetSwap(a, swptyp, swpoff) == PteSetSwap(b, swptyp, swpoff)
  {
    var ta := SetBit(SetBit(a, PRESENT_MASK), SWAPPED_MASK);
    var tb := SetBit(SetBit(b, PRESENT_MASK), SWAPPED_MASK);
    assert ta & !(SWPTYP_MASK | SWPOFF_MASK) == tb & !(SWPTYP_MASK | SWPOFF_MASK);
    SwapFieldsOverwrite(ta, tb, (swptyp << SWPTYP_LOBIT) & SWPTYP_MASK, (swpoff << SWPOFF_LOBIT) & SWPOFF_MASK);
  }

  /** Setting the same swap location twice is the same as setting it once. */
  lemma PteSetSwapIdempotent(pte: bv32, swptyp: bv32, swpoff: bv32)
    ensures PteSetSwap(PteSetSwap(pte, swptyp, swpoff).pte, swptyp, swpoff) == PteSetSwap(pte, swptyp, swpoff)
  {
    PteSetSwapDetermined(PteSetSwap(pte, swptyp, swpoff).pte, pte, swptyp, swpoff);
  }

  /** A swap location that fits its fields reads back exactly. */
  lemma PteSetSwapRoundTrip(pte: bv32, swptyp: bv32, swpoff: bv32)
    requires swptyp <= SWPTYP_MAX && swpoff <= SWPOFF_MAX
    ensures var w := PteSetSwap(pte, swptyp, swpoff).pte;
      SwpTyp(w) == swptyp && SwpOff(w) == swpoff
  {
  }

  /**
   * pte_set_fpn: the entry becomes present and not swapped, holding the frame
   * number; DIRTY, the swap fields and the spare bits are kept.  Always 0.
   */
  function PteSetFpn(pte: bv32, fpn: bv32): (r: PteResult)
    ensures r.rc == 0
    ensures IsPresent(r.pte) && !IsSwapped(r.pte)
    ensures Fpn(r.pte) == fpn & FPN_MAX
    ensures SameOutside(r.pte, pte, FPN_TOUCHED)
  {
    var w := ClrBit(SetBit(pte, PRESENT_MASK), SWAPPED_MASK);
    PteResult(0, SetVal(w, fpn, FPN_MASK, FPN_LOBIT))
  }

  /** pte_set_fpn keeps the DIRTY bit. */
  lemma PteSetFpnKeepsDirty(pte: bv32, fpn: bv32)
    ensures IsDirty(PteSetFpn(pte, fpn).pte) == IsDirty(pte)
  {
  }

  /** A frame number that fits the field reads back exactly, whatever the entry held. */
  lemma PteSetFpnRoundTrip(pte: bv32, fpn: bv32)
    requires fpn <= FPN_MAX
    ensures Fpn(PteSetFpn(pte, fpn).pte) == fpn
  {
  }

  /** Mapping a swapped-out page back to a frame clears SWAPPED.  That the old
      swap location bits stay in the word follows from the bit layout chosen
      in this module, where the frame field and the swap fields do not
      overlap; it is a property of this model's layout, not a promise of
      the program's. */
  lemma PteSetFpnAfterSwap(pte: bv32, swptyp: bv32, swpoff: bv32, fpn: bv32)
    ensures var w := PteSetFpn(PteSetSwap(pte, swptyp, swpoff).pte, fpn).pte;
      IsPresent(w) && !IsSwapped(w) && Fpn(w) == fpn & FPN_MAX
      && SwpTyp(w) == swptyp & SWPTYP_MAX && SwpOff(w) == swpoff & SWPOFF_MAX
  {
  }
}
