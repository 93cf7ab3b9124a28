/** The 32-bit tick arithmetic of the kernel (`TickType_t`, configUSE_16_BIT_TICKS == 0).

    Ideal time is an unbounded `nat`; the kernel only ever sees it modulo 2^32.  An ideal time is the
    pair of its epoch (how often the counter has wrapped) and its residue (what the counter shows). */
module Ticks {
  const MOD: int := 0x1_0000_0000
  const MAX_DELAY: int := 0xFFFF_FFFF

  type Tick = x: int | 0 <= x < MOD witness 0

  /** What the tick counter shows at ideal time `now`. */
  function Residue(now: int): (r: Tick)
  {
    now % MOD
  }

  /** How often the tick counter has wrapped by ideal time `now`. */
  function Epoch(now: int): int
  {
    now / MOD
  }

  /** Unsigned addition and subtraction, as the C code performs them on `TickType_t`. */
  function Plus(a: Tick, b: Tick): Tick
  {
    if a + b >= MOD then a + b - MOD else a + b
  }

  function Minus(a: Tick, b: Tick): Tick
  {
    if a < b then a - b + MOD else a - b
  }

  /** The ideal time with the given epoch and residue. */
  function At(epoch: int, r: Tick): int
  {
    epoch * MOD + r
  }

  lemma AtSplit(now: int)
    ensures now == At(Epoch(now), Residue(now))
  {
  }

  lemma AtParts(epoch: int, r: Tick)
    ensures Epoch(At(epoch, r)) == epoch && Residue(At(epoch, r)) == r
  {
  }

  /** Less than one revolution ahead of `now`, an ideal time lies in the epoch of `now` or the next
      one, and its residue tells which. */
  lemma WithinOneRevolution(now: int, d: int)
    requires 0 <= d < MOD
    ensures Residue(now + d) == Plus(Residue(now), d)
    ensures Epoch(now + d) == if Residue(now + d) < Residue(now) then Epoch(now) + 1 else Epoch(now)
  {
    var q, r := Epoch(now), Residue(now);
    if r + d < MOD {
      AtParts(q, r + d);
    } else {
      AtParts(q + 1, r + d - MOD);
    }
  }

  /** Unsigned subtraction recovers an ideal distance modulo 2^32, whatever the distance. */
  lemma MinusIsDistance(later: int, earlier: int)
    ensures Minus(Residue(later), Residue(earlier)) == Residue(later - earlier)
  {
    var q := Epoch(later) - Epoch(earlier);
    var d := Residue(later) - Residue(earlier);
    assert later - earlier == q * MOD + d;
    if d < 0 {
      AtParts(q - 1, d + MOD);
    } else {
      AtParts(q, d);
    }
  }
}
