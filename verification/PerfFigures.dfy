/**
  What the numbers in `/proc/kperf` mean to its host parser: each recovered value
  is a counter or the floor of a converted tick count.
*/
module PerfFigures {
  import opened Common
  import opened Quotients
  import opened Numerals
  import opened PerfText
  import opened PerfRoundTrip
  import opened PerfSnapshot

  /** `q` is `num / den` rounded down. */
  predicate Floor(q: nat, num: nat, den: nat) { q * den <= num < (q + 1) * den }

  /** The five figures of a point: counts as they are, times in whole micro- and nanoseconds; no clock, no time. */
  predicate Mean(f: seq<nat>, s: Stat, freq: nat) {
    && |f| == 5 && f[0] == s.calls && f[1] == s.totalTicks
    && (if freq == 0 then f[2] == 0 && f[3] == 0 && f[4] == 0
        else
          && Floor(f[2], s.totalTicks * 1_000_000, freq) && Floor(f[4], s.maxTicks * 1_000_000, freq)
          && (if s.calls == 0 then f[3] == 0 else Floor(f[3], s.totalTicks * 1_000_000_000, freq * s.calls)))
  }

  lemma QuotientIsFloor(num: nat, den: nat)
    requires den > 0
    ensures Floor(num / den, num, den)
  {
    DivideBack(num, den);
    assert (num / den + 1) * den == num / den * den + den;
  }

  /** Rounding down twice is rounding down once. */
  lemma FloorTwice(num: nat, a: nat, b: nat)
    requires a > 0 && b > 0
    ensures a * b > 0 && Floor(num / a / b, num, a * b)
  {
    var p, q := num / a, num / a / b;
    DivideBack(num, a);
    DivideBack(p, b);
    Shuffle(q, b, p % b, a, num % a);
    assert a * b > 0 by { MulMonotone(1, a, b); }
  }

  lemma Shuffle(q: nat, b: nat, r: nat, a: nat, s: nat)
    requires r < b && s < a
    ensures q * (a * b) <= (q * b + r) * a + s < (q + 1) * (a * b)
  {
    assert (q * b + r) * a == q * (a * b) + r * a;
    assert (q + 1) * (a * b) == q * (a * b) + a * b;
    MulMonotone(r + 1, b, a);
    assert (r + 1) * a == r * a + a;
  }

  lemma FiguresMean(s: Stat, freq: nat)
    ensures Mean(Figures(s, freq), s, freq)
  {
    hide Floor;
    if freq > 0 {
      QuotientIsFloor(s.totalTicks * 1_000_000, freq);
      QuotientIsFloor(s.maxTicks * 1_000_000, freq);
      if s.calls > 0 { FloorTwice(s.totalTicks * 1_000_000_000, freq, s.calls); }
    }
  }

  /** The values under `stem`, in the order calls, ticks, microseconds, average nanoseconds, longest microseconds. */
  predicate Tells(values: map<string, nat>, stem: string, s: Stat, freq: nat) {
    && stem + "_calls" in values && stem + "_total_ticks" in values && stem + "_total_us" in values
    && stem + "_avg_ns" in values && stem + "_max_us" in values
    && Mean([values[stem + "_calls"], values[stem + "_total_ticks"], values[stem + "_total_us"],
             values[stem + "_avg_ns"], values[stem + "_max_us"]], s, freq)
  }

  lemma GroupTells(values: map<string, nat>, es: seq<Entry>, at: nat, stem: string, s: Stat, freq: nat)
    requires Holds(values, es) && at + 5 <= |es| && es[at..at + 5] == Group(stem, s, freq)
    ensures Tells(values, stem, s, freq)
  {
    hide Mean, TicksToUs, AverageNs;
    FiguresMean(s, freq);
    var g := Group(stem, s, freq);
    assert es[at + 0] == g[0] && es[at + 1] == g[1] && es[at + 2] == g[2] && es[at + 3] == g[3] && es[at + 4] == g[4];
  }

  lemma SameGroup(es: seq<Entry>, at: nat, stem: string, s: Stat, freq: nat)
    requires at + 5 <= |es|
    requires forall i | 0 <= i < 5 :: es[at + i] == Entry(stem + "_" + METRICS[i], Figures(s, freq)[i])
    ensures es[at..at + 5] == Group(stem, s, freq)
  {
    hide Figures;
    var g := Group(stem, s, freq);
    forall i | 0 <= i < 5 ensures es[at..at + 5][i] == g[i] { assert es[at..at + 5][i] == es[at + i]; }
  }

  /** A parsed snapshot tells the figures of every general point under its name. */
  lemma PointTells(
    values: map<string, nat>, pre: seq<Entry>, names: seq<string>, stats: seq<Stat>, syscalls: seq<Stat>, freq: nat,
    post: seq<Entry>, k: nat)
    requires |names| == |stats| && k < |names| && Holds(values, Printed(pre, names, stats, syscalls, freq, post))
    ensures Tells(values, "profile_" + names[k], stats[k], freq)
  {
    hide Holds, Tells, Figures, PointEntries, SyscallEntries;
    var es := Printed(pre, names, stats, syscalls, freq, post);
    var at := |pre| + 1 + 5 * k;
    var points := PointEntries(names, stats, freq, |names|);
    forall i | 0 <= i < 5 ensures es[at + i] == Entry("profile_" + names[k] + "_" + METRICS[i], Figures(stats[k], freq)[i]) {
      PointEntry(names, stats, freq, |names|, k, i);
      assert es[at + i] == points[5 * k + i];
      assert "profile_" + names[k] + ("_" + METRICS[i]) == "profile_" + names[k] + "_" + METRICS[i];
    }
    SameGroup(es, at, "profile_" + names[k], stats[k], freq);
    GroupTells(values, es, at, "profile_" + names[k], stats[k], freq);
  }

  /** And of every system call that was made, under its number. */
  lemma SyscallTells(
    values: map<string, nat>, pre: seq<Entry>, names: seq<string>, stats: seq<Stat>, syscalls: seq<Stat>, freq: nat,
    post: seq<Entry>, id: nat)
    requires |names| == |stats| && |syscalls| == SLOTS && id < SLOTS && syscalls[id].calls > 0
    requires Holds(values, Printed(pre, names, stats, syscalls, freq, post))
    ensures Tells(values, "profile_syscall_" + Digits(id, 10), syscalls[id], freq)
  {
    hide Holds, Tells, Figures, PointEntries, SyscallEntries, Digits, Active, Head;
    ActiveAscends(syscalls, SLOTS);
    var k :| 0 <= k < |Active(syscalls, SLOTS)| && Active(syscalls, SLOTS)[k] == id;
    var es := Printed(pre, names, stats, syscalls, freq, post);
    var block := SyscallEntries(syscalls, freq, SLOTS);
    TimingSplits(pre, names, stats, syscalls, freq, post);
    var at, stem := |Head(pre, names, stats, freq)| + 5 * k, "profile_syscall_" + Digits(id, 10);
    forall i | 0 <= i < 5 ensures es[at + i] == Entry(stem + "_" + METRICS[i], Figures(syscalls[id], freq)[i]) {
      BlockEntry(syscalls, freq, SLOTS, k, i);
      assert es[at + i] == block[5 * k + i];
    }
    SameGroup(es, at, stem, syscalls[id], freq);
    GroupTells(values, es, at, stem, syscalls[id], freq);
  }
}
