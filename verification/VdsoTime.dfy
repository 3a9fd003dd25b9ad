/**
  The vDSO clock routines of os/src/vdso.rs, instruction by instruction on
  64-bit registers, against the kernel's 128-bit conversion of os/src/perf.rs.
*/
module VdsoTime {
  import opened Quotients
  import opened Common

  const ENOSYS: int := -38

  type u64 = x: nat | x < TWO64 witness 0

  // --- the instructions used ---

  function Mul(a: u64, b: u64): u64 { (a * b) % TWO64 }
  function Add(a: u64, b: u64): u64 { (a + b) % TWO64 }
  function Divu(a: u64, b: u64): u64 requires b != 0 { QuotientBound(a, b); a / b }
  function Remu(a: u64, b: u64): u64 requires b != 0 { a % b }

  datatype Clock = Answer(sec: u64, nsec: u64) | Errno(code: int)

  predicate Realtime(clockId: int) { clockId == 0 || clockId == 5 }

  predicate Supported(clockId: int) { clockId in {0, 5, 1, 4, 6, 7} }

  /** `__vdso_clock_gettime`; the same register updates on RISC-V and LoongArch. */
  method ClockGettime(clockId: int, ticks: u64, freq: u64, wallOffset: u64) returns (r: Clock)
    ensures r == ClockSpec(clockId, ticks, freq, wallOffset)
    ensures clockId !in {0, 1, 4, 5, 6, 7} || freq == 0 ==> r == Errno(-38)
    ensures clockId in {0, 1, 4, 5, 6, 7} && freq != 0 ==> r.Answer?
    ensures clockId in {1, 4, 6, 7} && 0 < freq <= 18_446_744_074 ==>
      r.nsec < 1_000_000_000 && r.sec * 1_000_000_000 + r.nsec == ticks * 1_000_000_000 / freq
    ensures clockId in {0, 5} && 0 < freq <= 18_446_744_074 ==>
      && r.nsec < 1_000_000_000
      && r.sec * 1_000_000_000 + r.nsec == (ticks * 1_000_000_000 / freq + wallOffset) % 0x1_0000_0000_0000_0000
  {
    var t5: u64 := 0;
    if !Supported(clockId) { return Errno(ENOSYS); }
    if Realtime(clockId) { t5 := 1; }
    var t0, t1 := ticks, freq;
    if t1 == 0 { return Errno(ENOSYS); }
    var t2 := Divu(t0, t1);
    var t3 := Remu(t0, t1);
    var t4: u64 := 1_000_000_000;
    t3 := Mul(t3, t4);
    t3 := Divu(t3, t1);
    if t5 != 0 {
      var t6 := wallOffset;
      t5 := Mul(t2, t4);
      t5 := Add(t5, t3);
      t5 := Add(t5, t6);
      t2 := Divu(t5, t4);
      t3 := Remu(t5, t4);
    }
    if freq <= MAX_FREQ {
      if clockId in {0, 5} { RealtimeClockIsExact(clockId, ticks, freq, wallOffset); }
      else { MonotonicClockIsExact(clockId, ticks, freq, wallOffset); }
    }
    return Answer(t2, t3);
  }

  /** The seconds and nanoseconds the instructions leave before the wall offset is added. */
  function Monotonic(ticks: u64, freq: u64): (u64, u64)
    requires freq != 0
  {
    (Divu(ticks, freq), Divu(Mul(Remu(ticks, freq), NSEC_PER_SEC), freq))
  }

  function WallNs(ticks: u64, freq: u64, wallOffset: u64): u64
    requires freq != 0
  {
    Add(Add(Mul(Monotonic(ticks, freq).0, NSEC_PER_SEC), Monotonic(ticks, freq).1), wallOffset)
  }

  function ClockSpec(clockId: int, ticks: u64, freq: u64, wallOffset: u64): Clock {
    if !Supported(clockId) || freq == 0 then Errno(ENOSYS)
    else if Realtime(clockId) then
      var ns := WallNs(ticks, freq, wallOffset);
      Answer(Divu(ns, NSEC_PER_SEC), Remu(ns, NSEC_PER_SEC))
    else Answer(Monotonic(ticks, freq).0, Monotonic(ticks, freq).1)
  }

  // --- gettimeofday on each architecture ---

  /** What a call leaves in memory: the timeval and timezone it stored, if any. */
  datatype Timeofday = Timeofday(code: int, tv: Timeval, zoneCleared: bool)
  datatype Timeval = NotStored | Stored(sec: u64, usec: u64)

  /** RISC-V repeats the arithmetic inline. */
  method GettimeofdayRiscv(wantTv: bool, wantTz: bool, ticks: u64, freq: u64, wallOffset: u64) returns (r: Timeofday)
    ensures r == GettimeofdaySpec(wantTv, wantTz, ticks, freq, wallOffset)
    ensures !wantTv ==> r == Timeofday(0, NotStored, wantTz)
    ensures wantTv && freq == 0 ==> r == Timeofday(-38, NotStored, false)
    ensures wantTv && 0 < freq <= 18_446_744_074 ==>
      && r.code == 0 && r.zoneCleared == wantTz && r.tv.Stored? && r.tv.usec < 1_000_000
      && r.tv.sec * 1_000_000 + r.tv.usec == (ticks * 1_000_000_000 / freq + wallOffset) % 0x1_0000_0000_0000_0000 / 1000
  {
    if wantTv && 0 < freq <= MAX_FREQ { GettimeofdayIsTruncatedRealtime(wantTz, ticks, freq, wallOffset); }
    var tv := NotStored;
    if wantTv {
      var t0, t1 := ticks, freq;
      if t1 == 0 { return Timeofday(ENOSYS, NotStored, false); }
      var t2 := Divu(t0, t1);
      var t3 := Remu(t0, t1);
      var t4: u64 := 1_000_000_000;
      t3 := Mul(t3, t4);
      t3 := Divu(t3, t1);
      var t6 := wallOffset;
      var t5 := Mul(t2, t4);
      t5 := Add(t5, t3);
      t5 := Add(t5, t6);
      t2 := Divu(t5, t4);
      t3 := Remu(t5, t4);
      t0 := 1000;
      t3 := Divu(t3, t0);
      tv := Stored(t2, t3);
    }
    r := Timeofday(0, tv, wantTz);
  }

  /** LoongArch calls its own clock_gettime(CLOCK_REALTIME) and divides. */
  method GettimeofdayLoongarch(wantTv: bool, wantTz: bool, ticks: u64, freq: u64, wallOffset: u64) returns (r: Timeofday)
    ensures r == GettimeofdaySpec(wantTv, wantTz, ticks, freq, wallOffset)
    ensures !wantTv ==> r == Timeofday(0, NotStored, wantTz)
    ensures wantTv && freq == 0 ==> r == Timeofday(-38, NotStored, false)
    ensures wantTv && 0 < freq <= 18_446_744_074 ==>
      && r.code == 0 && r.zoneCleared == wantTz && r.tv.Stored? && r.tv.usec < 1_000_000
      && r.tv.sec * 1_000_000 + r.tv.usec == (ticks * 1_000_000_000 / freq + wallOffset) % 0x1_0000_0000_0000_0000 / 1000
  {
    if wantTv && 0 < freq <= MAX_FREQ { GettimeofdayIsTruncatedRealtime(wantTz, ticks, freq, wallOffset); }
    var tv := NotStored;
    if wantTv {
      var spec := ClockGettime(0, ticks, freq, wallOffset);
      if spec.Errno? { return Timeofday(spec.code, NotStored, false); }
      tv := Stored(spec.sec, Divu(spec.nsec, 1000));
    }
    r := Timeofday(0, tv, wantTz);
  }

  /** Both architectures: clock_gettime(CLOCK_REALTIME) truncated to microseconds. */
  function GettimeofdaySpec(wantTv: bool, wantTz: bool, ticks: u64, freq: u64, wallOffset: u64): Timeofday {
    if !wantTv then Timeofday(0, NotStored, wantTz)
    else match ClockSpec(0, ticks, freq, wallOffset)
      case Errno(code) => Timeofday(code, NotStored, false)
      case Answer(sec, nsec) => Timeofday(0, Stored(sec, Divu(nsec, 1000)), wantTz)
  }

  // --- exactness ---

  /** The remainder product does not overflow: a test on the inputs. */
  predicate NoOverflow(ticks: u64, freq: u64)
    requires freq != 0
  {
    (ticks % freq) * NSEC_PER_SEC < TWO64
  }

  predicate Exact(ticks: u64, freq: u64)
    requires freq != 0
  {
    var (sec, nsec) := Monotonic(ticks, freq);
    nsec < NSEC_PER_SEC && sec * NSEC_PER_SEC + nsec == TicksToNs(ticks, freq)
  }

  lemma TrueSplit(ticks: u64, freq: u64)
    requires freq != 0
    ensures TicksToNs(ticks, freq) == (ticks / freq) * NSEC_PER_SEC + (ticks % freq) * NSEC_PER_SEC / freq
    ensures (ticks % freq) * NSEC_PER_SEC / freq < NSEC_PER_SEC
  {
    var q, r := ticks / freq, ticks % freq;
    assert ticks == q * freq + r;
    assert ticks * NSEC_PER_SEC == (q * NSEC_PER_SEC) * freq + r * NSEC_PER_SEC by {
      assert (q * freq) * NSEC_PER_SEC == (q * NSEC_PER_SEC) * freq;
    }
    DivShift(q * NSEC_PER_SEC, r * NSEC_PER_SEC, freq);
    DivBelow(r * NSEC_PER_SEC, NSEC_PER_SEC, freq);
  }

  /** The 64-bit sequence gives the kernel's 128-bit answer exactly when the remainder product fits. */
  lemma ExactIffNoOverflow(ticks: u64, freq: u64)
    requires freq != 0
    ensures Exact(ticks, freq) <==> NoOverflow(ticks, freq)
  {
    hide Monotonic, TicksToNs;
    TrueSplit(ticks, freq);
    MonotonicIs(ticks, freq);
    var x := (ticks % freq) * NSEC_PER_SEC;
    if x >= TWO64 { ShortQuotient(x, freq); }
  }

  lemma MonotonicIs(ticks: u64, freq: u64)
    requires freq != 0
    ensures Monotonic(ticks, freq) == (ticks / freq, (ticks % freq) * NSEC_PER_SEC % TWO64 / freq)
  {
  }

  /** A product truncated to 64 bits is short by at least 2^64, hence its quotient by at least one. */
  lemma ShortQuotient(x: nat, freq: u64)
    requires freq != 0 && x >= TWO64
    ensures x % TWO64 / freq < x / freq
  {
    DivMonotone(x % TWO64, x - freq, freq);
    DivShift(1, x - freq, freq);
  }

  const MAX_FREQ: nat := 18_446_744_074

  /** The routine is exact for every tick count exactly up to this frequency. */
  lemma ExactFrequencies(freq: u64)
    requires freq != 0
    ensures freq <= MAX_FREQ ==> forall ticks: u64 :: Exact(ticks, freq)
    ensures freq > MAX_FREQ ==> !Exact(freq - 1, freq)
  {
    if freq <= MAX_FREQ {
      forall ticks: u64 ensures Exact(ticks, freq) { ExactIffNoOverflow(ticks, freq); }
    } else {
      DivUnique(freq - 1, freq, 0, freq - 1);
      ExactIffNoOverflow(freq - 1, freq);
    }
  }

  /** CLOCK_MONOTONIC: a normalised timespec equal to the kernel's conversion. */
  lemma MonotonicClockIsExact(clockId: int, ticks: u64, freq: u64, wallOffset: u64)
    requires clockId in {1, 4, 6, 7} && 0 < freq <= MAX_FREQ
    ensures var r := ClockSpec(clockId, ticks, freq, wallOffset);
      && r.Answer? && r.nsec < NSEC_PER_SEC
      && r.sec * NSEC_PER_SEC + r.nsec == TicksToNs(ticks, freq)
  {
    ExactFrequencies(freq);
    assert Exact(ticks, freq);
  }

  lemma TicksMonotone(t1: u64, t2: u64, freq: u64)
    requires t1 <= t2
    ensures TicksToNs(t1, freq) <= TicksToNs(t2, freq)
  {
    if freq != 0 { DivMonotone(t1 * NSEC_PER_SEC, t2 * NSEC_PER_SEC, freq); }
  }

  /** Time read later is never earlier. */
  lemma MonotonicClockNeverRunsBack(clockId: int, t1: u64, t2: u64, freq: u64, wallOffset: u64)
    requires clockId in {1, 4, 6, 7} && 0 < freq <= MAX_FREQ && t1 <= t2
    ensures var a, b := ClockSpec(clockId, t1, freq, wallOffset), ClockSpec(clockId, t2, freq, wallOffset);
      && a.Answer? && b.Answer?
      && (a.sec < b.sec || (a.sec == b.sec && a.nsec <= b.nsec))
  {
    MonotonicClockIsExact(clockId, t1, freq, wallOffset);
    MonotonicClockIsExact(clockId, t2, freq, wallOffset);
    TicksMonotone(t1, t2, freq);
  }

  /** CLOCK_REALTIME: the kernel's nanoseconds plus the wall offset, modulo 2^64, as a normalised timespec. */
  lemma RealtimeClockIsExact(clockId: int, ticks: u64, freq: u64, wallOffset: u64)
    requires clockId in {0, 5} && 0 < freq <= MAX_FREQ
    ensures var r := ClockSpec(clockId, ticks, freq, wallOffset);
      && r.Answer? && r.nsec < NSEC_PER_SEC
      && r.sec * NSEC_PER_SEC + r.nsec == (TicksToNs(ticks, freq) + wallOffset) % TWO64
      && (TicksToNs(ticks, freq) + wallOffset < TWO64 ==>
            r.sec * NSEC_PER_SEC + r.nsec == TicksToNs(ticks, freq) + wallOffset)
  {
    hide WallNs, TicksToNs;
    WallIs(ticks, freq, wallOffset);
    DivideBack(WallNs(ticks, freq, wallOffset), NSEC_PER_SEC);
  }

  lemma WallIs(ticks: u64, freq: u64, wallOffset: u64)
    requires 0 < freq <= MAX_FREQ
    ensures WallNs(ticks, freq, wallOffset) == (TicksToNs(ticks, freq) + wallOffset) % TWO64
  {
    hide TicksToNs, Monotonic, Add, Mul;
    ExactFrequencies(freq);
    assert Exact(ticks, freq);
    WallWord(Monotonic(ticks, freq).0, Monotonic(ticks, freq).1, wallOffset);
  }

  lemma WallWord(sec: u64, nsec: u64, wall: u64)
    ensures Add(Add(Mul(sec, NSEC_PER_SEC), nsec), wall) == (sec * NSEC_PER_SEC + nsec + wall) % TWO64
  {
    AddMod(sec * NSEC_PER_SEC, nsec);
    AddMod(sec * NSEC_PER_SEC + nsec, wall);
  }

  /** gettimeofday is the wall time, as 64 bits of nanoseconds hold it, in whole
      microseconds, split at the second. */
  lemma GettimeofdayIsTruncatedRealtime(wantTz: bool, ticks: u64, freq: u64, wallOffset: u64)
    requires 0 < freq <= MAX_FREQ
    ensures var r := GettimeofdaySpec(true, wantTz, ticks, freq, wallOffset);
      && r.code == 0 && r.zoneCleared == wantTz && r.tv.Stored? && r.tv.usec < 1_000_000
      && r.tv.sec * 1_000_000 + r.tv.usec == (TicksToNs(ticks, freq) + wallOffset) % TWO64 / 1000
  {
    RealtimeClockIsExact(0, ticks, freq, wallOffset);
    var c := ClockSpec(0, ticks, freq, wallOffset);
    DivShift(c.sec * 1_000_000, c.nsec, 1000);
    DivBelow(c.nsec, 1_000_000, 1000);
  }
}
