/**
  The `/proc/kperf` timing section (os/src/perf.rs) and the host parser that
  reads it (scripts/run_rust_hello_bench.py).
*/
module PerfText {
  import opened Common
  import opened Numerals

  const METRICS: seq<string> := ["calls", "total_ticks", "total_us", "avg_ns", "max_us"]
  const SENTINEL: string := "kperf_syscall_timing_enabled"
  const SLOTS: nat := 512

  // --- one line ---

  predicate Lower(c: char) { 'a' <= c <= 'z' }

  predicate Decimal(c: char) { '0' <= c <= '9' }

  predicate ValidKey(k: string) {
    |k| > 0 && Lower(k[0]) && forall i | 0 <= i < |k| :: Lower(k[i]) || Decimal(k[i]) || k[i] == '_'
  }

  predicate AllDecimal(s: string) { forall i | 0 <= i < |s| :: Decimal(s[i]) }

  function Line(key: string, n: nat): string { key + " " + Digits(n, 10) }

  function FirstSpace(s: string): (i: nat)
    ensures i <= |s| && (i < |s| ==> s[i] == ' ') && forall j | 0 <= j < i :: s[j] != ' '
  {
    if s == [] || s[0] == ' ' then 0 else 1 + FirstSpace(s[1..])
  }

  /** `PERF_VALUE_RE.fullmatch` */
  function ParseLine(s: string): Option<(string, nat)> {
    var i := FirstSpace(s);
    if i + 1 < |s| && ValidKey(s[..i]) && AllDecimal(s[i + 1..]) then Some((s[..i], Value(s[i + 1..], 10))) else None
  }

  lemma {:induction false} DigitsAreDecimal(n: nat)
    ensures AllDecimal(Digits(n, 10))
  {
    hide Digits;
    DigitsStep(n, 10);
    if n >= 10 { DigitsAreDecimal(n / 10); }
  }

  /** Every printed line is read back as its key and value. */
  lemma LineRoundTrip(key: string, n: nat)
    requires ValidKey(key)
    ensures ParseLine(Line(key, n)) == Some((key, n))
  {
    hide Digits, Value;
    var s, d := Line(key, n), Digits(n, 10);
    DigitsAreDecimal(n);
    DigitsRoundTrip(n, 10);
    var i := FirstSpace(s);
    assert s[|key|] == ' ' && forall j | 0 <= j < |key| :: s[j] == key[j];
    assert i == |key|;
    assert s[..i] == key && s[i + 1..] == d;
  }

  // --- syscall keys ---

  const SYSCALL_PREFIX: string := "profile_syscall_"

  /** The length of the leading digits. */
  function DigitRun(s: string): (d: nat)
    ensures d <= |s| && AllDecimal(s[..d]) && (d < |s| ==> !Decimal(s[d]))
  {
    if s == [] || !Decimal(s[0]) then 0 else 1 + DigitRun(s[1..])
  }

  /** `PERF_SYSCALL_KEY_RE.fullmatch` */
  function SyscallKey(key: string): Option<(nat, string)> {
    if |key| < |SYSCALL_PREFIX| || key[..|SYSCALL_PREFIX|] != SYSCALL_PREFIX then None
    else
      var rest := key[|SYSCALL_PREFIX|..];
      var d := DigitRun(rest);
      if d > 0 && d < |rest| && rest[d] == '_' && rest[d + 1..] in METRICS
      then Some((Value(rest[..d], 10), rest[d + 1..]))
      else None
  }

  function SyscallKeyText(id: nat, metric: string): string {
    SYSCALL_PREFIX + Digits(id, 10) + "_" + metric
  }

  lemma {:induction false} DigitRunIs(digits: string, tail: string)
    requires AllDecimal(digits) && (tail == [] || !Decimal(tail[0]))
    ensures DigitRun(digits + tail) == |digits|
    decreases |digits|
  {
    if digits == [] {
      assert digits + tail == tail;
    } else {
      assert (digits + tail)[1..] == digits[1..] + tail;
      DigitRunIs(digits[1..], tail);
    }
  }

  lemma SyscallKeyRoundTrip(id: nat, metric: string)
    requires metric in METRICS
    ensures SyscallKey(SyscallKeyText(id, metric)) == Some((id, metric))
  {
    hide Digits, Value, DigitRun;
    var key, digits := SyscallKeyText(id, metric), Digits(id, 10);
    DigitsAreDecimal(id);
    DigitsRoundTrip(id, 10);
    var rest := key[|SYSCALL_PREFIX|..];
    assert key[..|SYSCALL_PREFIX|] == SYSCALL_PREFIX;
    assert rest == digits + ("_" + metric);
    DigitRunIs(digits, "_" + metric);
    assert rest[..|digits|] == digits && rest[|digits| + 1..] == metric;
  }

  // --- the printer ---

  /** One timed point: the aggregated counters. */
  datatype Stat = Stat(calls: nat, totalTicks: nat, maxTicks: nat)

  predicate InRange(s: Stat) { s.calls < TWO64 && s.totalTicks < TWO64 && s.maxTicks < TWO64 }

  function AverageNs(s: Stat, freq: nat): nat { if s.calls == 0 then 0 else TicksToNs(s.totalTicks, freq) / s.calls }

  /** The five values of a point, in the order of `METRICS`. */
  function Figures(s: Stat, freq: nat): (f: seq<nat>)
    ensures |f| == 5
  {
    [s.calls, s.totalTicks, TicksToUs(s.totalTicks, freq), AverageNs(s, freq), TicksToUs(s.maxTicks, freq)]
  }

  datatype Entry = Entry(key: string, value: nat)

  /** The lines of one point, keyed `stem_metric`. */
  function Group(stem: string, s: Stat, freq: nat): (es: seq<Entry>)
    ensures |es| == 5 && forall i | 0 <= i < 5 :: es[i] == Entry(stem + "_" + METRICS[i], Figures(s, freq)[i])
  {
    [Entry(stem + "_calls", s.calls), Entry(stem + "_total_ticks", s.totalTicks),
     Entry(stem + "_total_us", TicksToUs(s.totalTicks, freq)), Entry(stem + "_avg_ns", AverageNs(s, freq)),
     Entry(stem + "_max_us", TicksToUs(s.maxTicks, freq))]
  }

  function Stem(name: string): string { "profile_" + name }

  function SyscallStem(id: nat): string { SYSCALL_PREFIX + Digits(id, 10) }

  /** The general points, in table order. */
  function PointEntries(names: seq<string>, stats: seq<Stat>, freq: nat, n: nat): (es: seq<Entry>)
    requires |names| == |stats| && n <= |names|
    ensures |es| == 5 * n
    decreases n
  {
    if n == 0 then [] else PointEntries(names, stats, freq, n - 1) + Group(Stem(names[n - 1]), stats[n - 1], freq)
  }

  /** The system calls below `n` that were made. */
  function Active(syscalls: seq<Stat>, n: nat): (ids: seq<nat>)
    requires n <= |syscalls|
    ensures |ids| <= n && forall i | 0 <= i < |ids| :: ids[i] < n
    decreases n
  {
    if n == 0 then []
    else if syscalls[n - 1].calls == 0 then Active(syscalls, n - 1)
    else Active(syscalls, n - 1) + [n - 1]
  }

  function SyscallEntries(syscalls: seq<Stat>, freq: nat, n: nat): (es: seq<Entry>)
    requires n <= |syscalls|
    ensures |es| == 5 * |Active(syscalls, n)|
    decreases n
  {
    if n == 0 then []
    else if syscalls[n - 1].calls == 0 then SyscallEntries(syscalls, freq, n - 1)
    else SyscallEntries(syscalls, freq, n - 1) + Group(SyscallStem(n - 1), syscalls[n - 1], freq)
  }

  function LinesOf(es: seq<Entry>): (ls: seq<string>)
    ensures |ls| == |es| && forall i | 0 <= i < |es| :: ls[i] == Line(es[i].key, es[i].value)
  {
    seq(|es|, i requires 0 <= i < |es| => Line(es[i].key, es[i].value))
  }

  lemma LinesJoin(a: seq<Entry>, b: seq<Entry>)
    ensures LinesOf(a + b) == LinesOf(a) + LinesOf(b)
  {
    hide Line;
  }

  function TimingEntries(names: seq<string>, stats: seq<Stat>, syscalls: seq<Stat>, freq: nat): seq<Entry>
    requires |names| == |stats|
  {
    [Entry("kperf_timing_enabled", 1)] + PointEntries(names, stats, freq, |names|)
    + [Entry(SENTINEL, 1)] + SyscallEntries(syscalls, freq, |syscalls|)
  }

  /** `write!` of one point's five lines. */
  method AppendGroup(content: seq<string>, stem: string, s: Stat, freq: nat, ghost es: seq<Entry>) returns (r: seq<string>)
    requires content == LinesOf(es)
    ensures r == LinesOf(es + Group(stem, s, freq))
  {
    hide Digits, TicksToUs, TicksToNs;
    var avgNs := 0;
    if s.calls != 0 { avgNs := TicksToNs(s.totalTicks, freq) / s.calls; }
    LinesJoin(es, Group(stem, s, freq));
    r := content + [
      Line(stem + "_calls", s.calls), Line(stem + "_total_ticks", s.totalTicks),
      Line(stem + "_total_us", TicksToUs(s.totalTicks, freq)), Line(stem + "_avg_ns", avgNs),
      Line(stem + "_max_us", TicksToUs(s.maxTicks, freq))];
  }

  /** `append_timing_stats`, one string per line. */
  method AppendTimingStats(content: seq<string>, names: seq<string>, stats: seq<Stat>, syscalls: seq<Stat>, freq: nat)
    returns (r: seq<string>)
    requires |names| == |stats|
    ensures r == content + LinesOf(TimingEntries(names, stats, syscalls, freq))
  {
    hide Group, LinesOf, Line;
    ghost var es := [Entry("kperf_timing_enabled", 1)];
    OneLine("kperf_timing_enabled");
    r := [Line("kperf_timing_enabled", 1)];
    ghost var head := es;
    var i := 0;
    assert es + PointEntries(names, stats, freq, 0) == es;
    while i < |names|
      invariant i <= |names| && es == head + PointEntries(names, stats, freq, i) && r == LinesOf(es)
    {
      r := AppendGroup(r, Stem(names[i]), stats[i], freq, es);
      es := es + Group(Stem(names[i]), stats[i], freq);
      i := i + 1;
    }
    OneLine(SENTINEL);
    LinesJoin(es, [Entry(SENTINEL, 1)]);
    r := r + [Line(SENTINEL, 1)];
    es := es + [Entry(SENTINEL, 1)];
    head := es;
    i := 0;
    assert es + SyscallEntries(syscalls, freq, 0) == es;
    while i < |syscalls|
      invariant i <= |syscalls| && es == head + SyscallEntries(syscalls, freq, i) && r == LinesOf(es)
    {
      if syscalls[i].calls != 0 {
        r := AppendGroup(r, SyscallStem(i), syscalls[i], freq, es);
        es := es + Group(SyscallStem(i), syscalls[i], freq);
      }
      i := i + 1;
    }
    r := content + r;
  }

  lemma OneLine(key: string)
    ensures LinesOf([Entry(key, 1)]) == [Line(key, 1)]
  {
  }
}
