/** Small arithmetic that several components share. */
module Numbers {

  /** Ranks are 32 bits wide and wrap around. */
  const RANKS := 0x1_0000_0000

  function Bump(rank: nat): nat {
    (rank + 1) % RANKS
  }

  function Max(a: nat, b: nat): nat {
    if a < b then b else a
  }
}
