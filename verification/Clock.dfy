/** Readings of the 64-bit monotonic clock, and how the handlers subtract them. */
module Clock {
  import opened Powers

  type Word = n: nat | n < U64

  /** Unsigned 64-bit subtraction: the time since `ts`, unless the clock went back. */
  function Delta(now: Word, ts: Word): (delta: Word)
    ensures ts <= now ==> delta == now - ts
    ensures now < ts ==> delta == U64 - (ts - now)
  {
    (now - ts) % U64
  }
}
