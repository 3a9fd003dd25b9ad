/** Small definitions that several models share. */
module Common {

  datatype Option<T> = None | Some(value: T)

  const MAX_CPUS: nat := 12
  const TWO64: nat := 0x1_0000_0000_0000_0000
  const NSEC_PER_SEC: nat := 1_000_000_000
  const USEC_PER_SEC: nat := 1_000_000

  /** A condition as a count. */
  function Count(b: bool): nat { if b then 1 else 0 }

  /** `ticks_to_ns` of os/src/perf.rs: a 128-bit product and quotient, so no step can overflow. */
  function TicksToNs(ticks: nat, freq: nat): nat {
    if freq == 0 then 0 else ticks * NSEC_PER_SEC / freq
  }

  /** `ticks_to_us`, likewise. */
  function TicksToUs(ticks: nat, freq: nat): nat {
    if freq == 0 then 0 else ticks * USEC_PER_SEC / freq
  }
}
