/**
  Printer and parser end to end: what scripts/run_rust_hello_bench.py reads from
  the `/proc/kperf` text that os/src/perf.rs writes.
*/
module PerfSnapshot {
  import opened Common
  import opened PerfText
  import opened PerfParser
  import opened PerfRoundTrip
  import opened PerfPair
  import opened PerfPoints

  /** The whole snapshot: other sections, the timing section, more of the other sections. */
  function Printed(
    pre: seq<Entry>, names: seq<string>, stats: seq<Stat>, syscalls: seq<Stat>, freq: nat, post: seq<Entry>): seq<Entry>
    requires |names| == |stats|
  {
    pre + TimingEntries(names, stats, syscalls, freq) + post
  }

  ghost predicate Holds(values: map<string, nat>, es: seq<Entry>) {
    && (forall i | 0 <= i < |es| :: es[i].key in values && values[es[i].key] == es[i].value)
    && forall k | k in values :: exists i :: 0 <= i < |es| && es[i].key == k
  }

  lemma HoldsEntry(values: map<string, nat>, es: seq<Entry>, key: string)
    requires Holds(values, es)
    ensures SwitchedOn(values, key) <==> Entry(key, 1) in es
  {
    if SwitchedOn(values, key) {
      var i :| 0 <= i < |es| && es[i].key == key;
      assert es[i] == Entry(key, 1);
    }
  }

  lemma RecoveredHolds(es: seq<Entry>, keys: seq<string>, values: map<string, nat>)
    requires Recovered(LinesOf(es), |es|, keys, values) && forall i | 0 <= i < |es| :: EntryOk(es[i])
    ensures keys == KeysOf(es) && Holds(values, es)
  {
    hide ParseLine, EntryOk, LinesOf;
    ValuesRecovered(es, keys, values);
    forall k | k in values ensures exists i :: 0 <= i < |es| && es[i].key == k {
      var i :| 0 <= i < |keys| && keys[i] == k;
      assert es[i].key == k;
    }
  }

  /** The timing section says itself that it is on, so only the general switch is left to the other sections. */
  lemma EnabledExactly(
    values: map<string, nat>, pre: seq<Entry>, names: seq<string>, stats: seq<Stat>, syscalls: seq<Stat>, freq: nat,
    post: seq<Entry>)
    requires |names| == |stats| && Holds(values, Printed(pre, names, stats, syscalls, freq, post))
    ensures (forall key | key in ENABLED_KEYS :: SwitchedOn(values, key))
       <==> Entry("perf_counters_enabled", 1) in Printed(pre, names, stats, syscalls, freq, post)
  {
    hide Holds, PointEntries, SyscallEntries, SwitchedOn;
    var es := Printed(pre, names, stats, syscalls, freq, post);
    var timing := TimingEntries(names, stats, syscalls, freq);
    assert timing[0] == Entry("kperf_timing_enabled", 1) && timing[1 + 5 * |names|] == Entry(SENTINEL, 1);
    assert Entry("kperf_timing_enabled", 1) in es && Entry(SENTINEL, 1) in es;
    HoldsEntry(values, es, "perf_counters_enabled");
    HoldsEntry(values, es, "kperf_timing_enabled");
    HoldsEntry(values, es, SENTINEL);
    assert ENABLED_KEYS[0] == "perf_counters_enabled";
  }

  /** The required keys are judged by the fixed lines alone: which calls were made does not matter. */
  lemma RequiredExactly(
    pre: seq<Entry>, names: seq<string>, stats: seq<Stat>, syscalls: seq<Stat>, freq: nat, post: seq<Entry>,
    required: seq<string>)
    requires Printable(pre, names, stats, syscalls, freq, post)
    requires forall i | 0 <= i < |required| :: SyscallKey(required[i]).None?
    ensures RequiredOk(KeysOf(Printed(pre, names, stats, syscalls, freq, post)), required)
       <==> RequiredOk(KeysOf(Head(pre, names, stats, freq)) + KeysOf(post), required)
  {
    hide Sandwich, Head, TimingEntries, SyscallEntries, Active, RequiredOk, SyscallKey, AllForeign, Distinct, NameOk, InRange;
    var head, block := Head(pre, names, stats, freq), SyscallEntries(syscalls, freq, SLOTS);
    TimingSplits(pre, names, stats, syscalls, freq, post);
    PrintedIsSandwich(pre, names, stats, syscalls, freq, post);
    KeysJoin(head + block, post);
    KeysJoin(head, block);
    forall i | 0 <= i < |required| ensures required[i] !in KeysOf(block) {
      if j :| 0 <= j < |block| && KeysOf(block)[j] == required[i] {
        BlockKey(head, block, post, Active(syscalls, SLOTS), j);
        assert false;
      }
    }
    InsertedKeysDoNoHarm(KeysOf(head), KeysOf(block), KeysOf(post), required);
  }

  /**
    The parser on a printed snapshot, for every counter state: no syscall-group
    error, and a line error only for too many lines; keys, values and the ids of
    the calls made are those printed; the switch and required-key errors depend
    on the fixed lines only.
  */
  method ParsePrinted(
    pre: seq<Entry>, names: seq<string>, stats: seq<Stat>, syscalls: seq<Stat>, freq: nat, post: seq<Entry>,
    required: seq<string>)
    returns (r: Parsed)
    requires Printable(pre, names, stats, syscalls, freq, post)
    requires forall i | 0 <= i < |required| :: SyscallKey(required[i]).None?
    ensures r.groupsOk && r.ids == Active(syscalls, SLOTS)
    ensures r.linesOk <==> |pre| + 5 * |names| + 2 + 5 * |r.ids| + |post| <= MAX_LINES
    ensures var es := Printed(pre, names, stats, syscalls, freq, post);
      && r.keys == KeysOf(es) && Holds(r.values, es)
      && (r.enabledOk <==> Entry("perf_counters_enabled", 1) in es)
      && (r.requiredOk <==> RequiredOk(KeysOf(Head(pre, names, stats, freq)) + KeysOf(post), required))
  {
    hide Clean, Laid, LinesOk, LinesOf, KeysOf, Recovered, EntryOk, Active, TimingEntries, AllForeign, NameOk, InRange, Distinct,
      RequiredOk, Holds, SwitchedOn, Head, SyscallKey;
    var timing := AppendTimingStats(LinesOf(pre), names, stats, syscalls, freq);
    ghost var es := Printed(pre, names, stats, syscalls, freq, post);
    LinesJoin(pre, TimingEntries(names, stats, syscalls, freq));
    LinesJoin(pre + TimingEntries(names, stats, syscalls, freq), post);
    PrintedSnapshotParses(pre, names, stats, syscalls, freq, post);
    PrintedEntriesOk(pre, names, stats, syscalls, freq, post);
    r := ParsePerfSnapshot(timing + LinesOf(post), required);
    RecoveredHolds(es, r.keys, r.values);
    EnabledExactly(r.values, pre, names, stats, syscalls, freq, post);
    RequiredExactly(pre, names, stats, syscalls, freq, post, required);
  }

  /** Two printed snapshots of growing counters, parsed and compared: no key or group error. */
  method ComparePrinted(
    pre: seq<Entry>, stats: seq<Stat>, syscalls: seq<Stat>, post: seq<Entry>,
    pre': seq<Entry>, stats': seq<Stat>, syscalls': seq<Stat>, post': seq<Entry>,
    names: seq<string>, freq: nat, required: seq<string>)
    returns (ok: bool)
    requires Printable(pre, names, stats, syscalls, freq, post) && Printable(pre', names, stats', syscalls', freq, post')
    requires KeysOf(pre) == KeysOf(pre') && KeysOf(post) == KeysOf(post')
    requires forall i | 0 <= i < SLOTS :: syscalls[i].calls <= syscalls'[i].calls
    requires forall i | 0 <= i < |required| :: SyscallKey(required[i]).None?
    ensures ok
  {
    assert |KeysOf(pre)| == |pre| && |KeysOf(post)| == |post|;
    hide Active, TimingEntries, AllForeign, NameOk, InRange, Distinct, RequiredOk, Holds, SwitchedOn, Head, KeysOf,
      SyscallKey, NonSyscall;
    var before := ParsePrinted(pre, names, stats, syscalls, freq, post, required);
    var after := ParsePrinted(pre', names, stats', syscalls', freq, post', required);
    PrintedPairAgrees(pre, stats, syscalls, post, pre', stats', syscalls', post', names, freq);
    ok := ComparePair(before.keys, before.ids, after.keys, after.ids);
  }

  /** With the kernel's own table of points only the counters and the other sections' lines remain open. */
  lemma KernelTableIsPrintable(pre: seq<Entry>, stats: seq<Stat>, syscalls: seq<Stat>, freq: nat, post: seq<Entry>)
    requires |stats| == PROFILE_POINT_COUNT && |syscalls| == SLOTS
    requires forall i | 0 <= i < |stats| :: InRange(stats[i])
    requires forall i | 0 <= i < |syscalls| :: InRange(syscalls[i])
    requires AllForeign(pre) && AllForeign(post) && Distinct(KeysOf(pre + post))
    ensures Printable(pre, PointNames(), stats, syscalls, freq, post)
  {
    hide PointNames, NameOk, AllForeign, Distinct, KeysOf, InRange;
    PointNamesFit();
  }
}
