/** What several modules share. */
module Wrappers {

  datatype Option<T> = None | Some(value: T)
}

/** Unsigned machine arithmetic, written out on the naturals. */
module MachineWords {

  /** The largest 32-bit number, and how many 32-bit and 64-bit numbers there are. */
  const MAX_SEQ: nat := 0xffff_ffff
  const WORD: nat := 0x1_0000_0000
  const LONG: nat := 0x1_0000_0000_0000_0000

  function Sub32(a: nat, b: nat): nat { (a - b) % WORD }

  function Inc32(a: nat): nat { (a + 1) % WORD }
}
