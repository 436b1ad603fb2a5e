/** Optional values, standing for the NULL pointers the C code returns. */
module Wrappers {
  datatype Option<+T> = None | Some(value: T)
}

/**
 * Paging constants and the arithmetic helpers shared by the memory manager.
 * The header that defines the paging constants (mm.h) is not part of this
 * model: the values below are chosen to match a 22-bit address bus with
 * 256-byte pages.
 */
module Config {
  /** PAGING_PAGESZ: bytes per page and per physical frame. */
  const PAGESZ: nat := 256
  /** PAGING_MAX_PGN: number of page-table entries of one address space. */
  const MAX_PGN: nat := 16384
  /** PAGING_MAX_MMSWP: number of swap devices (include/os-mm.h:5). */
  const MAX_MMSWP: nat := 4

  /** C's `/` on int: the quotient is truncated toward zero. */
  function CDiv(a: int, b: int): (q: int)
    requires b != 0
    ensures a >= 0 && b > 0 ==> q == a / b
    ensures (a >= 0 && b < 0) || (a <= 0 && b > 0) ==> q <= 0
    ensures (if q < 0 then -q else q) == (if a < 0 then -a else a) / (if b < 0 then -b else b)
    ensures q != 0 ==> ((q > 0) <==> ((a < 0) == (b < 0)))
  {
    var n := if a < 0 then -a else a;
    var d := if b < 0 then -b else b;
    if (a < 0) == (b < 0) then n / d else -(n / d)
  }

  /** PAGING_PGN for a non-negative address: the page the address lies in. */
  function Pgn(addr: nat): nat { addr / PAGESZ }

  /** Frame `fpn` lies wholly inside a storage of `len` bytes. */
  predicate FrameInBounds(fpn: int, len: int) {
    0 <= fpn && (fpn + 1) * PAGESZ <= len
  }

  /** The list with its elements in the opposite order; built from the back,
      the way repeated prepends and repeated removals of the last node build it. */
  function Reversed(s: seq<int>): (r: seq<int>)
    ensures |r| == |s|
  {
    if s == [] then [] else [s[|s| - 1]] + Reversed(s[..|s| - 1])
  }

  lemma {:induction false} ReversedAt(s: seq<int>, k: nat)
    requires k < |s|
    ensures Reversed(s)[k] == s[|s| - 1 - k]
  {
    if k > 0 {
      ReversedAt(s[..|s| - 1], k - 1);
    }
  }

  lemma {:induction false} ReversedMultiset(s: seq<int>)
    ensures multiset(Reversed(s)) == multiset(s)
  {
    if s != [] {
      ReversedMultiset(s[..|s| - 1]);
      assert s == s[..|s| - 1] + [s[|s| - 1]];
    }
  }
}
