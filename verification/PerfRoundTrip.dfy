/** The kernel's timing section always parses: no syscall-group error, every value recovered. */
module PerfRoundTrip {
  import opened Quotients
  import opened Common
  import opened Numerals
  import opened PerfText
  import opened PerfParser

  // --- keys of the general points are never syscall keys ---

  /** `syscall_` followed by digits only: the one kind of point name that would be mistaken. */
  predicate SyscallName(name: string) {
    |name| > 8 && name[..8] == "syscall_" && AllDecimal(name[8..])
  }

  /** Two metrics that end the same key are the same. */
  lemma MetricsEndApart(s: string, x: string, y: string)
    requires x in METRICS && y in METRICS && |s| > |x| && |s| > |y|
    requires s[|s| - |x| - 1..] == "_" + x && s[|s| - |y| - 1..] == "_" + y
    ensures x == y
  {
    var n := |s|;
    EndsAt(s, x);
    EndsAt(s, y);
    assert s[n - 2] == x[|x| - 2] == y[|y| - 2];
    assert s[n - 4] == x[|x| - 4] == y[|y| - 4];
  }

  lemma EndsAt(s: string, x: string)
    requires |s| > |x| && |x| >= 4 && s[|s| - |x| - 1..] == "_" + x
    ensures s[|s| - 2] == x[|x| - 2] && s[|s| - 4] == x[|x| - 4]
  {
    var t := s[|s| - |x| - 1..];
    assert t[|t| - 2] == s[|s| - 2] && t[|t| - 4] == s[|s| - 4];
    assert ("_" + x)[|x| - 1] == x[|x| - 2] && ("_" + x)[|x| - 3] == x[|x| - 4];
  }

  lemma SyscallKeyParts(key: string) returns (digits: string, metric: string)
    requires SyscallKey(key).Some?
    ensures digits != [] && AllDecimal(digits) && metric in METRICS
    ensures key == SYSCALL_PREFIX + digits + ("_" + metric)
  {
    hide Value;
    var rest := key[|SYSCALL_PREFIX|..];
    var d := DigitRun(rest);
    digits, metric := rest[..d], rest[d + 1..];
    assert key == SYSCALL_PREFIX + rest;
    assert rest == digits + ("_" + metric);
  }

  lemma LastPart(p: string, x: string)
    ensures var s := p + ("_" + x); s[|s| - |x| - 1..] == "_" + x && s[..|s| - |x| - 1] == p && |s| > |x|
  {
  }

  lemma PrefixParts()
    ensures |SYSCALL_PREFIX| == 16 && SYSCALL_PREFIX == "profile_" + "syscall_"
  {
  }

  lemma DropStem(name: string, digits: string)
    requires "profile_" + name == "profile_" + "syscall_" + digits
    ensures name == "syscall_" + digits
  {
    var a, b := "profile_" + name, "profile_" + "syscall_" + digits;
    assert a[8..] == name && b[8..] == "syscall_" + digits;
  }

  lemma MistakenIsNamed(name: string, metric: string)
    requires metric in METRICS && SyscallKey(Stem(name) + ("_" + metric)).Some?
    ensures SyscallName(name)
  {
    hide SyscallKey;
    var key := Stem(name) + ("_" + metric);
    var digits, other := SyscallKeyParts(key);
    LastPart(Stem(name), metric);
    LastPart(SYSCALL_PREFIX + digits, other);
    MetricsEndApart(key, metric, other);
    PrefixParts();
    DropStem(name, digits);
    assert name[..8] == "syscall_" && name[8..] == digits;
  }

  lemma NamedIsMistaken(name: string, metric: string)
    requires metric in METRICS && SyscallName(name)
    ensures SyscallKey(Stem(name) + ("_" + metric)).Some?
  {
    hide Value, DigitRun;
    PrefixParts();
    var digits := name[8..];
    assert name == "syscall_" + digits;
    var key := Stem(name) + ("_" + metric);
    assert key == SYSCALL_PREFIX + (digits + ("_" + metric));
    var rest := key[16..];
    assert key[..16] == SYSCALL_PREFIX && rest == digits + ("_" + metric);
    DigitRunIs(digits, "_" + metric);
    assert rest[|digits| + 1..] == metric;
  }

  /** `profile_<name>_<metric>` is taken for a syscall key exactly when the name is `syscall_<digits>`. */
  lemma MistakenExactly(name: string, metric: string)
    requires metric in METRICS
    ensures SyscallKey(Stem(name) + "_" + metric).Some? <==> SyscallName(name)
  {
    hide SyscallKey, Stem, SyscallName;
    assert Stem(name) + "_" + metric == Stem(name) + ("_" + metric);
    if SyscallName(name) { NamedIsMistaken(name, metric); }
    if SyscallKey(Stem(name) + ("_" + metric)).Some? { MistakenIsNamed(name, metric); }
  }

  /** In particular the dispatcher's own point is not a syscall group. */
  lemma DispatchIsNotAGroup(metric: string)
    requires metric in METRICS
    ensures SyscallKey("profile_syscall_dispatch_" + metric).None?
  {
    hide SyscallKey, Stem;
    DispatchStem();
    var name := "syscall_dispatch";
    assert name[8..][0] == 'd';
    MistakenExactly(name, metric);
  }

  lemma DispatchStem()
    ensures Stem("syscall_dispatch") + "_" == "profile_syscall_dispatch_"
  {
  }

  // --- the syscall block ---

  lemma {:induction false} ActiveAscends(syscalls: seq<Stat>, n: nat)
    requires n <= |syscalls|
    ensures Ascending(Active(syscalls, n))
    ensures forall id: nat :: id in Active(syscalls, n) <==> id < n && syscalls[id].calls > 0
    decreases n
  {
    if n > 0 { ActiveAscends(syscalls, n - 1); }
  }

  /** Entry `5k + i` of the block is metric `i` of the `k`th active system call. */
  lemma {:induction false} BlockEntry(syscalls: seq<Stat>, freq: nat, n: nat, k: nat, i: nat)
    requires n <= |syscalls| && k < |Active(syscalls, n)| && i < 5
    ensures var id := Active(syscalls, n)[k];
      SyscallEntries(syscalls, freq, n)[5 * k + i] == Entry(SyscallKeyText(id, METRICS[i]), Figures(syscalls[id], freq)[i])
    decreases n
  {
    hide Figures, Group, Digits;
    if k < |Active(syscalls, n - 1)| {
      BlockEntry(syscalls, freq, n - 1, k, i);
    } else {
      var id := n - 1;
      assert SyscallEntries(syscalls, freq, n)[5 * k + i] == Group(SyscallStem(id), syscalls[id], freq)[i];
      assert SyscallStem(id) + "_" + METRICS[i] == SyscallKeyText(id, METRICS[i]);
    }
  }

  /** A system call once made stays in the list: counters only grow. */
  lemma GroupsOnlyGrow(before: seq<Stat>, after: seq<Stat>, id: nat)
    requires |before| == |after| && forall i | 0 <= i < |before| :: before[i].calls <= after[i].calls
    requires id in Active(before, |before|)
    ensures id in Active(after, |after|)
  {
    hide Active, Ascending;
    ActiveAscends(before, |before|);
    ActiveAscends(after, |after|);
  }

  // --- every line is short and well formed ---

  ghost predicate EntryOk(e: Entry) { ValidKey(e.key) && |Line(e.key, e.value)| <= 256 }

  predicate KeyChars(s: string) { forall i | 0 <= i < |s| :: Lower(s[i]) || Decimal(s[i]) || s[i] == '_' }

  /** The names of the timed points: key characters, not too long, not `syscall_<digits>`. */
  predicate NameOk(name: string) { KeyChars(name) && |name| <= 200 && !SyscallName(name) }

  lemma MetricsAreKeys(i: nat)
    requires i < 5
    ensures METRICS[i] in METRICS && KeyChars(METRICS[i]) && |METRICS[i]| <= 11
  {
  }

  lemma FigureFits(s: Stat, freq: nat, i: nat)
    requires InRange(s) && i < 5
    ensures |Digits(Figures(s, freq)[i], 10)| <= 29
  {
    hide Digits, Pow;
    var n := Figures(s, freq)[i];
    AtMost(s.totalTicks * 1_000_000, freq);
    AtMost(s.maxTicks * 1_000_000, freq);
    AtMost(s.totalTicks * 1_000_000_000, freq);
    AtMost(TicksToNs(s.totalTicks, freq), s.calls);
    assert n < TWO64 * 1_000_000_000;
    TenToThe29();
    DigitsFit(n, 10, 29);
  }

  lemma AtMost(n: nat, d: nat)
    ensures d > 0 ==> 0 <= n / d <= n
  {
    if d > 0 { QuotientBound(n, d); }
  }

  lemma TenToThe29()
    ensures TWO64 * 1_000_000_000 <= Pow(10, 29)
  {
    assert Pow(10, 9) == 1_000_000_000;
    PowSum(10, 9, 9);
    PowSum(10, 18, 11);
    assert Pow(10, 11) == 100_000_000_000;
  }

  lemma {:induction false} PowSum(base: nat, a: nat, b: nat)
    ensures Pow(base, a + b) == Pow(base, a) * Pow(base, b)
    decreases a
  {
    if a > 0 {
      PowSum(base, a - 1, b);
      MulAssociates(base, Pow(base, a - 1), Pow(base, b));
    }
  }

  lemma JoinedKey(first: string, rest: string)
    requires KeyChars(first) && KeyChars(rest) && first != [] && Lower(first[0])
    ensures ValidKey(first + rest)
  {
  }

  lemma GroupEntryOk(stem: string, s: Stat, freq: nat, i: nat)
    requires KeyChars(stem) && stem != [] && Lower(stem[0]) && |stem| <= 208 && InRange(s) && i < 5
    ensures EntryOk(Group(stem, s, freq)[i])
  {
    hide Digits, Figures, ValidKey;
    MetricsAreKeys(i);
    FigureFits(s, freq, i);
    JoinedKey(stem, "_" + METRICS[i]);
    assert stem + "_" + METRICS[i] == stem + ("_" + METRICS[i]);
  }

  lemma {:induction false} PointsOk(names: seq<string>, stats: seq<Stat>, freq: nat, n: nat, j: nat)
    requires |names| == |stats| && n <= |names| && j < 5 * n
    requires forall i | 0 <= i < |names| :: NameOk(names[i]) && InRange(stats[i])
    ensures var e := PointEntries(names, stats, freq, n)[j]; EntryOk(e) && SyscallKey(e.key).None?
    decreases n
  {
    hide SyscallKey, EntryOk, Group;
    if j < 5 * (n - 1) {
      PointsOk(names, stats, freq, n - 1, j);
    } else {
      var name, i := names[n - 1], j - 5 * (n - 1);
      StemOk(name);
      GroupEntryOk(Stem(name), stats[n - 1], freq, i);
      MetricsAreKeys(i);
      MistakenExactly(name, METRICS[i]);
    }
  }

  lemma StemOk(name: string)
    requires NameOk(name)
    ensures KeyChars(Stem(name)) && |Stem(name)| <= 208 && Stem(name) != [] && Lower(Stem(name)[0])
  {
  }

  lemma SyscallStemOk(id: nat)
    requires id < SLOTS
    ensures var t := SyscallStem(id); KeyChars(t) && |t| <= 208 && t != [] && Lower(t[0])
  {
    hide Digits;
    DigitsAreDecimal(id);
    assert Pow(10, 3) == 1000;
    DigitsFit(id, 10, 3);
    assert KeyChars(SYSCALL_PREFIX);
  }

  lemma {:induction false} BlockOk(syscalls: seq<Stat>, freq: nat, n: nat, j: nat)
    requires n <= |syscalls| <= SLOTS && j < |SyscallEntries(syscalls, freq, n)|
    requires forall i | 0 <= i < |syscalls| :: InRange(syscalls[i])
    ensures EntryOk(SyscallEntries(syscalls, freq, n)[j])
    decreases n
  {
    hide EntryOk, Group;
    var before := |SyscallEntries(syscalls, freq, n - 1)|;
    if j < before {
      BlockOk(syscalls, freq, n - 1, j);
    } else {
      SyscallStemOk(n - 1);
      GroupEntryOk(SyscallStem(n - 1), syscalls[n - 1], freq, j - before);
    }
  }

  // --- the whole snapshot ---

  function KeysOf(es: seq<Entry>): (ks: seq<string>)
    ensures |ks| == |es| && forall i | 0 <= i < |es| :: ks[i] == es[i].key
  {
    seq(|es|, i requires 0 <= i < |es| => es[i].key)
  }

  ghost predicate Distinct(ks: seq<string>) { forall i, j | 0 <= i < j < |ks| :: ks[i] != ks[j] }

  /** Everything printed before the first syscall line. */
  function Head(pre: seq<Entry>, names: seq<string>, stats: seq<Stat>, freq: nat): seq<Entry>
    requires |names| == |stats|
  {
    pre + ([Entry("kperf_timing_enabled", 1)] + PointEntries(names, stats, freq, |names|) + [Entry(SENTINEL, 1)])
  }

  /** The other sections' lines: well formed, and none a syscall key. */
  ghost predicate Other(es: seq<Entry>) {
    forall i | 0 <= i < |es| :: EntryOk(es[i]) && SyscallKey(es[i].key).None?
  }

  lemma OtherJoin(a: seq<Entry>, b: seq<Entry>)
    requires Other(a) && Other(b)
    ensures Other(a + b)
  {
    hide EntryOk, SyscallKey;
  }

  lemma NotSyscallKey(key: string)
    requires key != [] && key[0] != 'p'
    ensures SyscallKey(key).None?
  {
    hide DigitRun, Value;
    PrefixParts();
    if |key| >= 16 { assert key[..16][0] == key[0] && SYSCALL_PREFIX[0] == 'p'; }
  }

  lemma FixedKeys(key: string)
    requires key == "kperf_timing_enabled" || key == SENTINEL
    ensures ValidKey(key) && |key| <= 200 && key[0] == 'k'
  {
  }

  lemma FixedLine(key: string)
    requires key == "kperf_timing_enabled" || key == SENTINEL
    ensures Other([Entry(key, 1)])
  {
    hide Digits, ValidKey, SyscallKey;
    FixedKeys(key);
    NotSyscallKey(key);
    DigitsFit(1, 10, 1);
  }

  lemma HeadIsOther(pre: seq<Entry>, names: seq<string>, stats: seq<Stat>, freq: nat)
    requires |names| == |stats| && Other(pre)
    requires forall i | 0 <= i < |names| :: NameOk(names[i]) && InRange(stats[i])
    ensures Other(Head(pre, names, stats, freq))
  {
    hide EntryOk, SyscallKey, PointEntries, NameOk;
    var points := PointEntries(names, stats, freq, |names|);
    forall j | 0 <= j < |points| ensures EntryOk(points[j]) && SyscallKey(points[j].key).None? {
      PointsOk(names, stats, freq, |names|, j);
    }
    FixedLine("kperf_timing_enabled");
    FixedLine(SENTINEL);
    OtherJoin([Entry("kperf_timing_enabled", 1)], points);
    OtherJoin([Entry("kperf_timing_enabled", 1)] + points, [Entry(SENTINEL, 1)]);
    OtherJoin(pre, [Entry("kperf_timing_enabled", 1)] + points + [Entry(SENTINEL, 1)]);
  }

  /** A key list of three parts whose middle is the syscall block. */
  ghost predicate Sandwich(head: seq<Entry>, block: seq<Entry>, post: seq<Entry>, ids: seq<nat>) {
    && Other(head) && Other(post) && |block| == 5 * |ids| && Ascending(ids)
    && (forall k | 0 <= k < |ids| :: ids[k] < SLOTS)
    && (forall j | 0 <= j < |block| :: EntryOk(block[j]))
    && (forall k, i | 0 <= k < |ids| && 0 <= i < 5 :: BlockAt(block, ids, k, i))
    && head != [] && head[|head| - 1].key == SENTINEL && Distinct(KeysOf(head + post))
  }

  ghost predicate BlockAt(block: seq<Entry>, ids: seq<nat>, k: nat, i: nat)
    requires k < |ids| && i < 5
  {
    5 * k + i < |block| && SyscallKey(block[5 * k + i].key) == Some((ids[k], METRICS[i]))
  }

  lemma MetricsDistinct(i: nat, j: nat)
    requires i < 5 && j < 5 && METRICS[i] == METRICS[j]
    ensures i == j
  {
  }

  lemma BlockKey(head: seq<Entry>, block: seq<Entry>, post: seq<Entry>, ids: seq<nat>, j: nat)
    requires Sandwich(head, block, post, ids) && j < |block|
    ensures j / 5 < |ids| && SyscallKey(block[j].key) == Some((ids[j / 5], METRICS[j % 5]))
  {
    hide SyscallKey, Other, EntryOk, Distinct, Ascending;
    assert BlockAt(block, ids, j / 5, j % 5);
  }

  lemma BlockKeysDiffer(head: seq<Entry>, block: seq<Entry>, post: seq<Entry>, ids: seq<nat>, i: nat, j: nat)
    requires Sandwich(head, block, post, ids) && i < j < |block|
    ensures block[i].key != block[j].key
  {
    BlockKey(head, block, post, ids, i);
    BlockKey(head, block, post, ids, j);
    assert Ascending(ids);
    hide SyscallKey, Sandwich;
    if ids[i / 5] == ids[j / 5] && METRICS[i % 5] == METRICS[j % 5] {
      MetricsDistinct(i % 5, j % 5);
      assert false;
    }
  }

  /** No key is printed twice. */
  lemma KeysDiffer(head: seq<Entry>, block: seq<Entry>, post: seq<Entry>, ids: seq<nat>, i: nat, j: nat)
    requires Sandwich(head, block, post, ids) && i < j < |head + block + post|
    ensures (head + block + post)[i].key != (head + block + post)[j].key
  {
    hide SyscallKey, EntryOk;
    var all, h, b := head + block + post, |head|, |block|;
    var rest := head + post;
    if h <= i < h + b { BlockKey(head, block, post, ids, i - h); }
    if h <= j < h + b { BlockKey(head, block, post, ids, j - h); }
    if h <= i && j < h + b {
      BlockKeysDiffer(head, block, post, ids, i - h, j - h);
    } else if !(h <= i < h + b) && !(h <= j < h + b) {
      var i', j' := if i < h then i else i - b, if j < h then j else j - b;
      assert rest[i'] == all[i] && rest[j'] == all[j];
      assert KeysOf(rest)[i'] != KeysOf(rest)[j'];
    }
  }

  lemma EntryParses(es: seq<Entry>, i: nat)
    requires i < |es| && EntryOk(es[i])
    ensures |LinesOf(es)[i]| <= 256 && ParseLine(LinesOf(es)[i]) == Some((es[i].key, es[i].value))
  {
    hide ParseLine, Line, ValidKey;
    LineRoundTrip(es[i].key, es[i].value);
  }

  lemma AllEntriesOk(head: seq<Entry>, block: seq<Entry>, post: seq<Entry>, ids: seq<nat>, i: nat)
    requires Sandwich(head, block, post, ids) && i < |head + block + post|
    ensures EntryOk((head + block + post)[i])
  {
    hide EntryOk, SyscallKey, Distinct, Ascending;
  }

  lemma SandwichLinesOk(head: seq<Entry>, block: seq<Entry>, post: seq<Entry>, ids: seq<nat>)
    requires Sandwich(head, block, post, ids)
    ensures LinesOf(head + block + post) != [] && LinesOk(LinesOf(head + block + post), |head + block + post|)
  {
    assert head != [];
    hide Sandwich, ParseLine, EntryOk, LinesOf;
    var all := head + block + post;
    var lines := LinesOf(all);
    forall i | 0 <= i < |lines| ensures LineOk(lines, i) {
      AllEntriesOk(head, block, post, ids, i);
      EntryParses(all, i);
      forall j | 0 <= j < i ensures ParseLine(lines[j]).Some? ==> ParseLine(lines[j]).value.0 != ParseLine(lines[i]).value.0 {
        AllEntriesOk(head, block, post, ids, j);
        EntryParses(all, j);
        KeysDiffer(head, block, post, ids, j, i);
      }
    }
  }

  lemma SandwichIsBlock(head: seq<Entry>, block: seq<Entry>, post: seq<Entry>, ids: seq<nat>)
    requires Sandwich(head, block, post, ids)
    ensures OnlyBlock(KeysOf(head + block + post), |head|, 5 * |ids|)
  {
    hide SyscallKey, EntryOk, Distinct, Ascending;
    var all, h, b := head + block + post, |head|, |block|;
    var keys := KeysOf(all);
    forall i | 0 <= i < |keys| ensures SyscallKey(keys[i]).Some? <==> h <= i < h + b {
      if h <= i < h + b { BlockKey(head, block, post, ids, i - h); }
    }
  }

  lemma SandwichInPlace(head: seq<Entry>, block: seq<Entry>, post: seq<Entry>, ids: seq<nat>)
    requires Sandwich(head, block, post, ids)
    ensures InPlace(KeysOf(head + block + post), |head|, ids)
  {
    hide SyscallKey, EntryOk, Distinct, Ascending, Other;
    var all := head + block + post;
    forall k, i | 0 <= k < |ids| && 0 <= i < 5 ensures ids[k] < SLOTS && LaidAt(KeysOf(all), |head|, ids, k, i) {
      assert BlockAt(block, ids, k, i);
      assert all[|head| + (5 * k + i)] == block[5 * k + i];
    }
  }

  lemma SentinelBefore(head: seq<Entry>, block: seq<Entry>, post: seq<Entry>, ids: seq<nat>)
    requires Sandwich(head, block, post, ids)
    ensures SentinelIndex(KeysOf(head + block + post)) == |head| - 1
  {
    var keys, at := KeysOf(head + block + post), |head| - 1;
    assert keys[at] == SENTINEL;
    hide Sandwich, SyscallKey;
    var s := SentinelIndex(keys);
    hide SentinelIndex;
    if s < at {
      KeysDiffer(head, block, post, ids, s, at);
      assert false;
    }
  }

  /** The printed keys lay out the syscall groups as the parser wants them. */
  lemma SandwichIsLaid(head: seq<Entry>, block: seq<Entry>, post: seq<Entry>, ids: seq<nat>)
    requires Sandwich(head, block, post, ids)
    ensures Laid(KeysOf(head + block + post), |head|, ids)
  {
    assert Ascending(ids) && |block| == 5 * |ids|;
    hide Sandwich, OnlyBlock, InPlace, Ascending, SentinelIndex, KeysOf;
    SandwichIsBlock(head, block, post, ids);
    SandwichInPlace(head, block, post, ids);
    SentinelBefore(head, block, post, ids);
  }

  // --- the keys around the block are distinct ---

  predicate DistinctNames(names: seq<string>) { forall i, j | 0 <= i < j < |names| :: names[i] != names[j] }

  predicate ProfileKey(key: string) { |key| >= 8 && key[..8] == "profile_" }

  /** A line of another section: well formed, and with none of the timing section's keys. */
  ghost predicate Foreign(e: Entry) {
    EntryOk(e) && !ProfileKey(e.key) && e.key != "kperf_timing_enabled" && e.key != SENTINEL
  }

  ghost predicate AllForeign(es: seq<Entry>) { forall i | 0 <= i < |es| :: Foreign(es[i]) }

  /** Entry `5k + i` of the general points is metric `i` of point `k`. */
  lemma {:induction false} PointEntry(names: seq<string>, stats: seq<Stat>, freq: nat, n: nat, k: nat, i: nat)
    requires |names| == |stats| && k < n <= |names| && i < 5
    ensures PointEntries(names, stats, freq, n)[5 * k + i]
         == Entry(Stem(names[k]) + ("_" + METRICS[i]), Figures(stats[k], freq)[i])
    decreases n
  {
    hide Figures, Group;
    if k < n - 1 {
      PointEntry(names, stats, freq, n - 1, k, i);
    } else {
      assert PointEntries(names, stats, freq, n)[5 * k + i] == Group(Stem(names[k]), stats[k], freq)[i];
      assert Stem(names[k]) + "_" + METRICS[i] == Stem(names[k]) + ("_" + METRICS[i]);
    }
  }

  lemma SameStem(a: string, b: string)
    requires Stem(a) == Stem(b)
    ensures a == b
  {
    assert Stem(a)[8..] == a && Stem(b)[8..] == b;
  }

  /** Different names or different metrics give different keys. */
  lemma PointKeysDiffer(a: string, i: nat, b: string, j: nat)
    requires i < 5 && j < 5 && Stem(a) + ("_" + METRICS[i]) == Stem(b) + ("_" + METRICS[j])
    ensures a == b && i == j
  {
    hide Stem;
    MetricsAreKeys(i);
    MetricsAreKeys(j);
    LastPart(Stem(a), METRICS[i]);
    LastPart(Stem(b), METRICS[j]);
    MetricsEndApart(Stem(a) + ("_" + METRICS[i]), METRICS[i], METRICS[j]);
    MetricsDistinct(i, j);
    SameStem(a, b);
  }

  lemma PointsDiffer(names: seq<string>, stats: seq<Stat>, freq: nat, i: nat, j: nat)
    requires |names| == |stats| && i < j < 5 * |names| && DistinctNames(names)
    ensures PointEntries(names, stats, freq, |names|)[i].key != PointEntries(names, stats, freq, |names|)[j].key
  {
    hide PointEntries, Stem, Figures;
    var es := PointEntries(names, stats, freq, |names|);
    PointEntry(names, stats, freq, |names|, i / 5, i % 5);
    PointEntry(names, stats, freq, |names|, j / 5, j % 5);
    assert 5 * (i / 5) + i % 5 == i && 5 * (j / 5) + j % 5 == j;
    if es[i].key == es[j].key {
      PointKeysDiffer(names[i / 5], i % 5, names[j / 5], j % 5);
      assert false;
    }
  }

  lemma PointIsProfile(names: seq<string>, stats: seq<Stat>, freq: nat, i: nat)
    requires |names| == |stats| && i < 5 * |names|
    ensures ProfileKey(PointEntries(names, stats, freq, |names|)[i].key)
  {
    hide PointEntries, Figures;
    PointEntry(names, stats, freq, |names|, i / 5, i % 5);
    assert 5 * (i / 5) + i % 5 == i;
    assert (Stem(names[i / 5]) + ("_" + METRICS[i % 5]))[..8] == "profile_";
  }

  lemma FixedAreNotProfile()
    ensures !ProfileKey("kperf_timing_enabled") && !ProfileKey(SENTINEL) && "kperf_timing_enabled" != SENTINEL
  {
    assert "kperf_timing_enabled"[..8][0] == 'k' && SENTINEL[..8][0] == 'k' && "profile_"[0] == 'p';
  }

  /** No two keys around the syscall block are the same. */
  lemma RestDiffers(pre: seq<Entry>, names: seq<string>, stats: seq<Stat>, freq: nat, post: seq<Entry>, i: nat, j: nat)
    requires |names| == |stats| && DistinctNames(names) && AllForeign(pre) && AllForeign(post) && Distinct(KeysOf(pre + post))
    requires i < j < |Head(pre, names, stats, freq) + post|
    ensures (Head(pre, names, stats, freq) + post)[i].key != (Head(pre, names, stats, freq) + post)[j].key
  {
    hide PointEntries, EntryOk, DistinctNames, ProfileKey;
    var points := PointEntries(names, stats, freq, |names|);
    var all, a, m := Head(pre, names, stats, freq) + post, |pre|, |points|;
    assert all == pre + ([Entry("kperf_timing_enabled", 1)] + points + [Entry(SENTINEL, 1)]) + post;
    FixedAreNotProfile();
    if a < i <= a + m { PointIsProfile(names, stats, freq, i - a - 1); }
    if a < j <= a + m { PointIsProfile(names, stats, freq, j - a - 1); }
    if a < i && j <= a + m {
      PointsDiffer(names, stats, freq, i - a - 1, j - a - 1);
    } else if !(a <= i < a + m + 2) && !(a <= j < a + m + 2) {
      var i', j' := if i < a then i else i - m - 2, if j < a then j else j - m - 2;
      assert (pre + post)[i'] == all[i] && (pre + post)[j'] == all[j];
      assert KeysOf(pre + post)[i'] != KeysOf(pre + post)[j'];
    }
  }

  lemma RestIsDistinct(pre: seq<Entry>, names: seq<string>, stats: seq<Stat>, freq: nat, post: seq<Entry>)
    requires |names| == |stats| && DistinctNames(names) && AllForeign(pre) && AllForeign(post) && Distinct(KeysOf(pre + post))
    ensures Distinct(KeysOf(Head(pre, names, stats, freq) + post))
  {
    hide AllForeign, DistinctNames, Head;
    var all := Head(pre, names, stats, freq) + post;
    forall i, j | 0 <= i < j < |all| ensures KeysOf(all)[i] != KeysOf(all)[j] {
      RestDiffers(pre, names, stats, freq, post, i, j);
    }
  }

  lemma ForeignIsOther(es: seq<Entry>)
    requires AllForeign(es)
    ensures Other(es)
  {
    hide EntryOk, SyscallKey;
    forall i | 0 <= i < |es| ensures SyscallKey(es[i].key).None? { NotProfile(es[i].key); }
  }

  lemma NotProfile(key: string)
    requires !ProfileKey(key)
    ensures SyscallKey(key).None?
  {
    hide DigitRun, Value;
    PrefixParts();
    if |key| >= 16 {
      assert key[..16][..8] == key[..8] && SYSCALL_PREFIX[..8] == "profile_";
    }
  }

  /**
    What the source fixes about a snapshot: 512 counters of machine words,
    distinct point names, and other sections with well-formed, distinct keys
    that are not the timing section's.
  */
  ghost predicate Printable(
    pre: seq<Entry>, names: seq<string>, stats: seq<Stat>, syscalls: seq<Stat>, freq: nat, post: seq<Entry>)
  {
    && |names| == |stats| && |syscalls| == SLOTS && DistinctNames(names)
    && (forall i | 0 <= i < |names| :: NameOk(names[i]) && InRange(stats[i]))
    && (forall i | 0 <= i < |syscalls| :: InRange(syscalls[i]))
    && AllForeign(pre) && AllForeign(post) && Distinct(KeysOf(pre + post))
  }

  lemma PrintedIsSandwich(
    pre: seq<Entry>, names: seq<string>, stats: seq<Stat>, syscalls: seq<Stat>, freq: nat, post: seq<Entry>)
    requires Printable(pre, names, stats, syscalls, freq, post)
    ensures Sandwich(Head(pre, names, stats, freq), SyscallEntries(syscalls, freq, SLOTS), post, Active(syscalls, SLOTS))
  {
    hide EntryOk, SyscallKey, PointEntries, NameOk, InRange, SyscallEntries, Active, Other, Distinct, KeysOf, Figures,
      AllForeign, DistinctNames;
    RestIsDistinct(pre, names, stats, freq, post);
    ForeignIsOther(pre);
    ForeignIsOther(post);
    var block, ids := SyscallEntries(syscalls, freq, SLOTS), Active(syscalls, SLOTS);
    HeadIsOther(pre, names, stats, freq);
    ActiveAscends(syscalls, SLOTS);
    forall j | 0 <= j < |block| ensures EntryOk(block[j]) { BlockOk(syscalls, freq, SLOTS, j); }
    forall k, i | 0 <= k < |ids| && 0 <= i < 5 ensures BlockAt(block, ids, k, i) {
      BlockEntry(syscalls, freq, SLOTS, k, i);
      MetricsAreKeys(i);
      SyscallKeyRoundTrip(ids[k], METRICS[i]);
    }
  }

  lemma Regroup(pre: seq<Entry>, a: seq<Entry>, b: seq<Entry>, c: seq<Entry>, block: seq<Entry>, post: seq<Entry>)
    ensures pre + (a + b + c + block) + post == pre + (a + b + c) + block + post
  {
  }

  lemma TimingSplits(
    pre: seq<Entry>, names: seq<string>, stats: seq<Stat>, syscalls: seq<Stat>, freq: nat, post: seq<Entry>)
    requires |names| == |stats| && |syscalls| == SLOTS
    ensures pre + TimingEntries(names, stats, syscalls, freq) + post
         == Head(pre, names, stats, freq) + SyscallEntries(syscalls, freq, SLOTS) + post
    ensures |Head(pre, names, stats, freq)| == |pre| + 5 * |names| + 2
  {
    hide PointEntries, SyscallEntries;
    Regroup(pre, [Entry("kperf_timing_enabled", 1)], PointEntries(names, stats, freq, |names|), [Entry(SENTINEL, 1)],
            SyscallEntries(syscalls, freq, SLOTS), post);
  }

  /**
    For every counter state the printed lines are all well formed and the
    syscall groups are those of the calls made, so the only possible complaint
    is about the number of lines.
  */
  lemma PrintedSnapshotParses(
    pre: seq<Entry>, names: seq<string>, stats: seq<Stat>, syscalls: seq<Stat>, freq: nat, post: seq<Entry>)
    requires Printable(pre, names, stats, syscalls, freq, post)
    ensures var es, ids := pre + TimingEntries(names, stats, syscalls, freq) + post, Active(syscalls, SLOTS);
      && LinesOk(LinesOf(es), |es|) && Laid(KeysOf(es), |pre| + 5 * |names| + 2, ids)
      && (Clean(LinesOf(es)) <==> |pre| + 5 * |names| + 2 + 5 * |ids| + |post| <= MAX_LINES)
  {
    hide Sandwich, LinesOk, Laid, LinesOf, KeysOf, Other, Distinct, NameOk, InRange, SyscallEntries, Active, Head, TimingEntries;
    var head, block := Head(pre, names, stats, freq), SyscallEntries(syscalls, freq, SLOTS);
    TimingSplits(pre, names, stats, syscalls, freq, post);
    PrintedIsSandwich(pre, names, stats, syscalls, freq, post);
    SandwichLinesOk(head, block, post, Active(syscalls, SLOTS));
    SandwichIsLaid(head, block, post, Active(syscalls, SLOTS));
  }

  /** What a clean parse recovers is what was printed, key by key. */
  lemma ValuesRecovered(es: seq<Entry>, keys: seq<string>, values: map<string, nat>)
    requires Recovered(LinesOf(es), |es|, keys, values) && forall i | 0 <= i < |es| :: EntryOk(es[i])
    ensures keys == KeysOf(es) && forall i | 0 <= i < |es| :: es[i].key in values && values[es[i].key] == es[i].value
  {
    hide ParseLine, EntryOk, LinesOf;
    forall i | 0 <= i < |es| ensures keys[i] == es[i].key && es[i].key in values && values[es[i].key] == es[i].value {
      EntryParses(es, i);
    }
  }

  lemma PrintedEntriesOk(
    pre: seq<Entry>, names: seq<string>, stats: seq<Stat>, syscalls: seq<Stat>, freq: nat, post: seq<Entry>)
    requires Printable(pre, names, stats, syscalls, freq, post)
    ensures var es := pre + TimingEntries(names, stats, syscalls, freq) + post;
      forall i | 0 <= i < |es| :: EntryOk(es[i])
  {
    hide Sandwich, Other, Distinct, NameOk, InRange, SyscallEntries, Active, Head, TimingEntries, EntryOk, AllForeign;
    var head, block := Head(pre, names, stats, freq), SyscallEntries(syscalls, freq, SLOTS);
    TimingSplits(pre, names, stats, syscalls, freq, post);
    PrintedIsSandwich(pre, names, stats, syscalls, freq, post);
    var es := head + block + post;
    forall i | 0 <= i < |es| ensures EntryOk(es[i]) { AllEntriesOk(head, block, post, Active(syscalls, SLOTS), i); }
  }

  // --- the required keys ---

  lemma {:induction false} IndexJoin(a: seq<string>, b: seq<string>, key: string)
    requires key in a + b
    ensures IndexOf(a + b, key) == if key in a then IndexOf(a, key) else |a| + IndexOf(b, key)
    decreases |a|
  {
    if a == [] {
      assert a + b == b;
    } else {
      assert (a + b)[1..] == a[1..] + b;
      if a[0] != key { IndexJoin(a[1..], b, key); }
    }
  }

  /** Keys inserted between others that are not required move nothing out of order. */
  lemma InsertedKeysDoNoHarm(h: seq<string>, b: seq<string>, p: seq<string>, required: seq<string>)
    requires forall i | 0 <= i < |required| :: required[i] !in b
    ensures RequiredOk(h + b + p, required) <==> RequiredOk(h + p, required)
  {
    hide IndexOf;
    forall i | 0 <= i < |required|
      ensures required[i] in h + b + p <==> required[i] in h + p
      ensures required[i] in h + p ==> InsertedIndex(h, b, p, required[i])
    {
      var key := required[i];
      if key in h + p {
        IndexJoin(h + b, p, key);
        IndexJoin(h, b + p, key);
        IndexJoin(h, p, key);
        assert h + (b + p) == h + b + p;
      }
    }
    if forall i | 0 <= i < |required| :: required[i] in h + p {
      forall i | 0 <= i < |required| ensures InsertedIndex(h, b, p, required[i]) {}
    }
  }

  ghost predicate InsertedIndex(h: seq<string>, b: seq<string>, p: seq<string>, key: string) {
    && key in h + p && key in h + b + p
    && IndexOf(h + b + p, key) == (if key in h then IndexOf(h + p, key) else IndexOf(h + p, key) + |b|)
    && (key in h ==> IndexOf(h + p, key) < |h|) && (key !in h ==> IndexOf(h + p, key) >= |h|)
  }
}
