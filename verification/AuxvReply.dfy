/**
  How much of the auxiliary vector one reply carries.  The length is computed in 64-bit arithmetic
  without asking whether the offset lies behind the end, and the copy starts at an entry, not a byte.
*/
module AuxvReply {
  import opened Numerals

  const ENTRY_SIZE := 16
  const MAX_ENTRIES := 10

  datatype Key = BASE | ENTRY | PHDR | PHENT | PHNUM | NULL

  /** The entries of the vector, in order. */
  function Entries(hasExec: bool): seq<Key> {
    [BASE] + (if hasExec then [ENTRY, PHDR, PHENT, PHNUM] else []) + [NULL]
  }

  /** The length of the vector in bytes. */
  function End(hasExec: bool): nat { ENTRY_SIZE * |Entries(hasExec)| }

  lemma EndIs()
    ensures End(true) == 96 && End(false) == 32 && End(true) <= ENTRY_SIZE * MAX_ENTRIES
  {
  }

  /** The number of bytes a reply carries. */
  function Length(end: nat, offset: nat, length: nat): nat {
    var left := (end - offset) % UINT64_LIMIT;
    if left < length then left else length
  }

  /** Up to the end of the vector, a reply carries what is left of it, or less if less was asked for. */
  lemma WithinTheVector(end: nat, offset: nat, length: nat)
    requires offset <= end < UINT64_LIMIT
    ensures Length(end, offset, length) == if length < end - offset then length else end - offset
  {
  }

  /** A reply is longer than the vector exactly when that was asked for at an offset behind its end,
      where what is left wraps around. */
  lemma LongIff(hasExec: bool, offset: nat, length: nat, max: nat)
    requires offset <= ENTRY_SIZE * MAX_ENTRIES <= max < UINT64_LIMIT - ENTRY_SIZE * MAX_ENTRIES
    ensures Length(End(hasExec), offset, length) > max <==> End(hasExec) < offset && length > max
  {
  }

  /** `n` bytes from entry `offset` on, which is what is copied. */
  function Copied(at: nat -> bv8, offset: nat, n: nat): string {
    seq(n, i requires 0 <= i < n => at(ENTRY_SIZE * offset + i) as char)
  }

  /** `n` bytes from byte `offset` on, which is what was asked for. */
  function Wanted(at: nat -> bv8, offset: nat, n: nat): string {
    seq(n, i requires 0 <= i < n => at(offset + i) as char)
  }

  /** What is copied is what was asked for, whatever the vector holds, exactly at offset 0 and for
      replies without bytes. */
  lemma CopiedIsWantedIff(offset: nat, n: nat)
    ensures (forall at: nat -> bv8 :: Copied(at, offset, n) == Wanted(at, offset, n)) <==> offset == 0 || n == 0
  {
    if offset > 0 && n > 0 {
      var at: nat -> bv8 := k => if k == offset then 1 else 0;
      assert Copied(at, offset, n)[0] != Wanted(at, offset, n)[0];
    }
  }
}
