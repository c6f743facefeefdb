/** What every module shares. */
module Wire {
  type Byte = b: int | 0 <= b < 256

  datatype Option<+T> = None | Some(value: T)

  const WRAP := 0x1_0000_0000

  /** Elapsed time on the free-running 32-bit millisecond counter. */
  function Since(now: int, past: int): nat { (now - past) % WRAP }

  /** Up to a wrap apart, the counter's difference is the real one. */
  lemma SinceIsElapsed(past: nat, d: nat)
    requires d < WRAP
    ensures Since((past + d) % WRAP, past % WRAP) == d
  {
    var q := past / WRAP;
    var p := (past + d) / WRAP;
    assert (past + d) % WRAP - past % WRAP == d + (q - p) * WRAP;
    assert q <= p <= q + 1;
  }
}
