/**
  `parse_perf_snapshot` of scripts/run_rust_hello_bench.py, and its round trip
  with the kernel's printer.
*/
module PerfParser {
  import opened Common
  import opened Numerals
  import opened PerfText

  // ------------------------------------------------------------------
  // The syscall groups of a key list
  // ------------------------------------------------------------------

  /** Positions below `n` that hold a syscall key, and what the keys say. */
  function Positions(keys: seq<string>, n: nat): (ps: seq<nat>)
    requires n <= |keys|
    ensures |ps| <= n
    decreases n
  {
    if n == 0 then []
    else if SyscallKey(keys[n - 1]).Some? then Positions(keys, n - 1) + [n - 1]
    else Positions(keys, n - 1)
  }

  function Found(keys: seq<string>, n: nat): (fs: seq<(nat, string)>)
    requires n <= |keys|
    ensures |fs| == |Positions(keys, n)|
    decreases n
  {
    if n == 0 then []
    else if SyscallKey(keys[n - 1]).Some? then Found(keys, n - 1) + [SyscallKey(keys[n - 1]).value]
    else Found(keys, n - 1)
  }

  function Range(a: nat, m: nat): (r: seq<nat>)
    ensures |r| == m && forall i | 0 <= i < m :: r[i] == a + i
  {
    seq(m, i => a + i)
  }

  /** The sentinel's index, or -1. */
  function SentinelIndex(keys: seq<string>): (i: int)
    ensures -1 <= i < |keys| && (i >= 0 ==> keys[i] == SENTINEL) && (i == -1 ==> SENTINEL !in keys)
    ensures forall j | 0 <= j < i :: keys[j] != SENTINEL
  {
    if keys == [] then -1
    else if keys[0] == SENTINEL then 0
    else
      var i := SentinelIndex(keys[1..]);
      if i == -1 then -1 else i + 1
  }

  predicate Ascending(ids: seq<nat>) { forall i, j | 0 <= i < j < |ids| :: ids[i] < ids[j] }

  predicate GroupOk(fs: seq<(nat, string)>, k: nat)
    requires 5 * k + 5 <= |fs|
  {
    fs[5 * k].0 < SLOTS && forall i | 0 <= i < 5 :: fs[5 * k + i] == (fs[5 * k].0, METRICS[i])
  }

  /** Whole groups of five metrics in order, for ascending ids below 512. */
  ghost predicate Grouped(fs: seq<(nat, string)>, ids: seq<nat>) {
    && |fs| == 5 * |ids| && Ascending(ids)
    && (forall k | 0 <= k < |ids| :: ids[k] == fs[5 * k].0 && GroupOk(fs, k))
  }

  /** Metric `i` of group `k` is in its place. */
  ghost predicate LaidAt(keys: seq<string>, a: nat, ids: seq<nat>, k: nat, i: nat)
    requires k < |ids| && i < 5
  {
    a + 5 * k + i < |keys| && SyscallKey(keys[a + 5 * k + i]) == Some((ids[k], METRICS[i]))
  }

  /** The syscall keys are exactly those from `a` to `a + m`. */
  ghost predicate OnlyBlock(keys: seq<string>, a: nat, m: nat) {
    forall i | 0 <= i < |keys| :: SyscallKey(keys[i]).Some? <==> a <= i < a + m
  }

  ghost predicate InPlace(keys: seq<string>, a: nat, ids: seq<nat>) {
    forall k, i | 0 <= k < |ids| && 0 <= i < 5 :: ids[k] < SLOTS && LaidAt(keys, a, ids, k, i)
  }

  /** The syscall keys are one block of groups right behind the sentinel. */
  ghost predicate Laid(keys: seq<string>, a: nat, ids: seq<nat>) {
    && a + 5 * |ids| <= |keys| && Ascending(ids) && OnlyBlock(keys, a, 5 * |ids|) && InPlace(keys, a, ids)
    && (ids != [] ==> a == SentinelIndex(keys) + 1)
  }

  lemma {:induction false} PositionsOf(keys: seq<string>, n: nat, p: nat)
    requires n <= |keys|
    ensures p in Positions(keys, n) <==> p < n && SyscallKey(keys[p]).Some?
    decreases n
  {
    hide SyscallKey;
    if n > 0 { PositionsOf(keys, n - 1, p); }
  }

  lemma {:induction false} FoundAt(keys: seq<string>, n: nat, i: nat)
    requires n <= |keys| && i < |Positions(keys, n)|
    ensures var p := Positions(keys, n)[i]; p < n && SyscallKey(keys[p]) == Some(Found(keys, n)[i])
    decreases n
  {
    hide SyscallKey;
    if i < |Positions(keys, n - 1)| { FoundAt(keys, n - 1, i); }
  }

  lemma {:induction false} PositionsAreRange(keys: seq<string>, n: nat, a: nat, m: nat)
    requires n <= |keys| && a + m <= |keys|
    requires OnlyBlock(keys, a, m)
    ensures Positions(keys, n) == Range(a, if n <= a then 0 else if n <= a + m then n - a else m)
    decreases n
  {
    hide SyscallKey;
    if n > 0 { PositionsAreRange(keys, n - 1, a, m); }
  }

  lemma PositionsInRange(keys: seq<string>, a: nat, m: nat, i: nat)
    requires Positions(keys, |keys|) == Range(a, m) && i < |keys|
    ensures SyscallKey(keys[i]).Some? <==> a <= i < a + m
  {
    hide SyscallKey, Positions;
    PositionsOf(keys, |keys|, i);
    if a <= i < a + m { assert Range(a, m)[i - a] == i; }
  }

  lemma GroupMember(fs: seq<(nat, string)>, ids: seq<nat>, k: nat, i: nat)
    requires Grouped(fs, ids) && k < |ids| && i < 5
    ensures 5 * k + i < |fs| && fs[5 * k + i] == (ids[k], METRICS[i]) && ids[k] < SLOTS
  {
    assert GroupOk(fs, k);
  }

  lemma GroupedAscends(fs: seq<(nat, string)>, ids: seq<nat>)
    requires Grouped(fs, ids)
    ensures Ascending(ids)
  {
  }

  lemma Placed(keys: seq<string>, a: nat, ids: seq<nat>, k: nat, i: nat)
    requires k < |ids| && i < 5 && a + (5 * k + i) < |keys|
    requires SyscallKey(keys[a + (5 * k + i)]) == Some((ids[k], METRICS[i]))
    ensures LaidAt(keys, a, ids, k, i)
  {
    hide SyscallKey;
    assert a + (5 * k + i) == a + 5 * k + i;
  }

  lemma FoundInRange(keys: seq<string>, a: nat, ids: seq<nat>, k: nat, i: nat)
    requires Positions(keys, |keys|) == Range(a, 5 * |ids|) && Grouped(Found(keys, |keys|), ids) && k < |ids| && i < 5
    ensures LaidAt(keys, a, ids, k, i) && ids[k] < SLOTS
  {
    hide *;
    GroupMember(Found(keys, |keys|), ids, k, i);
    var j := 5 * k + i;
    FoundAt(keys, |keys|, j);
    assert Range(a, 5 * |ids|)[j] == a + j;
    Placed(keys, a, ids, k, i);
  }

  /** The parser's check and the layout say the same. */
  lemma LaidFromCheck(keys: seq<string>, a: nat, ids: seq<nat>)
    requires Positions(keys, |keys|) == Range(a, 5 * |ids|) && Grouped(Found(keys, |keys|), ids)
    requires ids != [] ==> a == SentinelIndex(keys) + 1
    requires a + 5 * |ids| <= |keys|
    ensures Laid(keys, a, ids)
  {
    hide SyscallKey, SentinelIndex, Positions, Found, Grouped, Ascending, OnlyBlock, InPlace, Range;
    GroupedAscends(Found(keys, |keys|), ids);
    RangeIsBlock(keys, a, 5 * |ids|);
    GroupsInPlace(keys, a, ids);
  }

  lemma RangeIsBlock(keys: seq<string>, a: nat, m: nat)
    requires Positions(keys, |keys|) == Range(a, m)
    ensures OnlyBlock(keys, a, m)
  {
    hide SyscallKey, Positions;
    forall i | 0 <= i < |keys| ensures SyscallKey(keys[i]).Some? <==> a <= i < a + m { PositionsInRange(keys, a, m, i); }
  }

  lemma GroupsInPlace(keys: seq<string>, a: nat, ids: seq<nat>)
    requires Positions(keys, |keys|) == Range(a, 5 * |ids|) && Grouped(Found(keys, |keys|), ids)
    ensures InPlace(keys, a, ids)
  {
    hide SyscallKey, Positions, Found, Grouped, LaidAt;
    forall k, i | 0 <= k < |ids| && 0 <= i < 5 ensures ids[k] < SLOTS && LaidAt(keys, a, ids, k, i) {
      FoundInRange(keys, a, ids, k, i);
    }
  }

  lemma LaidMember(keys: seq<string>, a: nat, ids: seq<nat>, k: nat, i: nat)
    requires Laid(keys, a, ids) && k < |ids| && i < 5
    requires Positions(keys, |keys|) == Range(a, 5 * |ids|)
    ensures Found(keys, |keys|)[5 * k + i] == (ids[k], METRICS[i]) && ids[k] < SLOTS
  {
    hide SyscallKey, SentinelIndex, Positions, Found;
    var j := 5 * k + i;
    FoundAt(keys, |keys|, j);
    assert Range(a, 5 * |ids|)[j] == a + j;
    assert LaidAt(keys, a, ids, k, i);
  }

  lemma CheckFromLaid(keys: seq<string>, a: nat, ids: seq<nat>)
    requires Laid(keys, a, ids)
    ensures Positions(keys, |keys|) == Range(a, 5 * |ids|) && Grouped(Found(keys, |keys|), ids)
  {
    hide SyscallKey, SentinelIndex, Positions, Found;
    PositionsAreRange(keys, |keys|, a, 5 * |ids|);
    assert Positions(keys, |keys|) == Range(a, 5 * |ids|);
    assert Ascending(ids);
    hide Laid;
    var fs := Found(keys, |keys|);
    forall k | 0 <= k < |ids| ensures ids[k] == fs[5 * k].0 && GroupOk(fs, k) {
      LaidMember(keys, a, ids, k, 0);
      forall i | 0 <= i < 5 ensures fs[5 * k + i] == (ids[k], METRICS[i]) { LaidMember(keys, a, ids, k, i); }
    }
  }

  /** The group loop of the parser. */
  method CheckEntries(fs: seq<(nat, string)>) returns (ids: seq<nat>, ok: bool)
    ensures ok ==> Grouped(fs, ids)
    ensures forall other :: Grouped(fs, other) ==> ok && ids == other
  {
    ok := true;
    ids := [];
    var offset := 0;
    while offset < |fs|
      invariant offset == 5 * |ids| && offset <= |fs|
      invariant forall k | 0 <= k < |ids| :: ids[k] == fs[5 * k].0
      invariant ok <==> forall k | 0 <= k < |ids| :: GroupOk(fs, k)
    {
      if offset + 5 > |fs| { ok := false; return; }
      var id := fs[offset].0;
      ghost var k := |ids|;
      assert GroupOk(fs, k) <==> id < SLOTS && forall i | 0 <= i < 5 :: fs[offset + i] == (id, METRICS[i]);
      if id >= SLOTS { ok := false; }
      if !(forall i | 0 <= i < 5 :: fs[offset + i] == (id, METRICS[i])) { ok := false; }
      ids := ids + [id];
      offset := offset + 5;
    }
    if !Ascending(ids) { ok := false; }
    SameIds(fs, ids);
  }

  lemma SameIds(fs: seq<(nat, string)>, ids: seq<nat>)
    requires |fs| == 5 * |ids| && forall k | 0 <= k < |ids| :: ids[k] == fs[5 * k].0
    ensures forall other :: Grouped(fs, other) ==> ids == other
  {
    forall other | Grouped(fs, other) ensures ids == other {
      assert |ids| == |other|;
    }
  }

  /** The syscall part of `parse_perf_snapshot`: `ok` when it adds no error. */
  method CheckGroups(keys: seq<string>) returns (ids: seq<nat>, ok: bool)
    ensures ok ==> exists a: nat :: Laid(keys, a, ids)
    ensures forall a: nat, other: seq<nat> :: Laid(keys, a, other) ==> ok && ids == other
  {
    hide SyscallKey, SentinelIndex, Grouped, Laid, Ascending;
    var entries: seq<(nat, string)> := [];
    var indices: seq<nat> := [];
    var index := 0;
    while index < |keys|
      invariant index <= |keys| && indices == Positions(keys, index) && entries == Found(keys, index)
    {
      var m := SyscallKey(keys[index]);
      if m.Some? {
        indices := indices + [index];
        entries := entries + [m.value];
      }
      index := index + 1;
    }
    forall a: nat, other: seq<nat> | Laid(keys, a, other) ensures indices == Range(a, 5 * |other|) && Grouped(entries, other) {
      CheckFromLaid(keys, a, other);
    }
    if entries == [] {
      ids, ok := [], true;
      NoGroups(keys);
      return;
    }
    var groupsOk;
    ids, groupsOk := CheckEntries(entries);
    var sentinel := SentinelIndex(keys);
    ok := groupsOk && indices == Range(indices[0], |indices|) && indices[0] == sentinel + 1;
    if ok {
      BehindSentinel(keys, indices[0], ids, entries, indices);
    }
    forall a: nat, other: seq<nat> | Laid(keys, a, other) ensures ok && ids == other {
      LaidStart(keys, a, other, indices);
    }
  }

  lemma NoGroups(keys: seq<string>)
    requires Found(keys, |keys|) == []
    ensures Laid(keys, 0, []) && forall a: nat, other: seq<nat> :: Laid(keys, a, other) ==> other == []
  {
    hide SyscallKey, SentinelIndex, Positions, Found;
    forall i | 0 <= i < |keys| ensures SyscallKey(keys[i]).None? { PositionsOf(keys, |keys|, i); }
    forall a: nat, other: seq<nat> | Laid(keys, a, other) ensures other == [] {
      CheckFromLaid(keys, a, other);
    }
  }

  lemma BehindSentinel(keys: seq<string>, a: nat, ids: seq<nat>, entries: seq<(nat, string)>, indices: seq<nat>)
    requires entries == Found(keys, |keys|) && indices == Positions(keys, |keys|) && entries != []
    requires Grouped(entries, ids) && indices == Range(a, |indices|) && a == SentinelIndex(keys) + 1
    ensures Laid(keys, a, ids)
  {
    hide SyscallKey, SentinelIndex, Positions, Found;
    var last := |indices| - 1;
    FoundAt(keys, |keys|, last);
    assert indices[last] == a + last;
    LaidFromCheck(keys, a, ids);
  }

  lemma LaidStart(keys: seq<string>, a: nat, other: seq<nat>, indices: seq<nat>)
    requires Laid(keys, a, other) && indices == Range(a, 5 * |other|) && indices != []
    ensures indices[0] == a == SentinelIndex(keys) + 1 && indices == Range(indices[0], |indices|)
  {
    hide SyscallKey, SentinelIndex;
  }

  // ------------------------------------------------------------------
  // The whole snapshot
  // ------------------------------------------------------------------

  /** The line is short and well formed, and its key is new. */
  ghost predicate LineOk(lines: seq<string>, i: nat)
    requires i < |lines|
  {
    && |lines[i]| <= 256 && ParseLine(lines[i]).Some?
    && forall j | 0 <= j < i :: ParseLine(lines[j]).Some? ==> ParseLine(lines[j]).value.0 != ParseLine(lines[i]).value.0
  }

  ghost predicate LinesOk(lines: seq<string>, n: nat)
    requires n <= |lines|
  {
    forall i | 0 <= i < n :: LineOk(lines, i)
  }

  const MAX_LINES: nat := 4096

  ghost predicate Clean(lines: seq<string>) {
    0 < |lines| <= MAX_LINES && LinesOk(lines, |lines|)
  }

  /** Keys in line order, each with its value. */
  ghost predicate Recovered(lines: seq<string>, n: nat, keys: seq<string>, values: map<string, nat>)
    requires n <= |lines|
  {
    && |keys| == n && (forall k :: k in values <==> k in keys)
    && forall i | 0 <= i < n :: keys[i] in values && ParseLine(lines[i]) == Some((keys[i], values[keys[i]]))
  }

  /** One turn of the line loop. */
  method ReadLine(lines: seq<string>, n: nat, keys: seq<string>, values: map<string, nat>, ghost soFar: bool)
    returns (keys': seq<string>, values': map<string, nat>, ok: bool)
    requires n < |lines| && (forall k :: k in values <==> k in keys)
    requires soFar <==> LinesOk(lines, n)
    requires soFar ==> Recovered(lines, n, keys, values)
    ensures forall k :: k in values' <==> k in keys'
    ensures soFar && ok <==> LinesOk(lines, n + 1)
    ensures soFar && ok ==> Recovered(lines, n + 1, keys', values')
  {
    hide ParseLine;
    keys', values', ok := keys, values, false;
    assert LinesOk(lines, n + 1) ==> LineOk(lines, n);
    if |lines[n]| > 256 { return; }
    var m := ParseLine(lines[n]);
    if m.None? { return; }
    var key := m.value.0;
    if key in values {
      if soFar {
        var j :| 0 <= j < n && keys[j] == key;
        assert ParseLine(lines[j]).value.0 == key;
        assert !LineOk(lines, n);
      }
      return;
    }
    if soFar {
      forall j | 0 <= j < n && ParseLine(lines[j]).Some? ensures ParseLine(lines[j]).value.0 != key {
        assert keys[j] in values;
      }
      assert LineOk(lines, n);
    }
    keys' := keys + [key];
    values' := values[key := m.value.1];
    ok := true;
  }

  /** The first position of a key. */
  function IndexOf(keys: seq<string>, key: string): (i: nat)
    requires key in keys
    ensures i < |keys| && keys[i] == key
  {
    if keys[0] == key then 0 else 1 + IndexOf(keys[1..], key)
  }

  /** The required keys are all there, in their order. */
  predicate RequiredOk(keys: seq<string>, required: seq<string>) {
    && (forall i | 0 <= i < |required| :: required[i] in keys)
    && (forall i, j | 0 <= i < j < |required| :: IndexOf(keys, required[i]) <= IndexOf(keys, required[j]))
  }

  method CheckRequired(keys: seq<string>, required: seq<string>) returns (ok: bool)
    ensures ok <==> RequiredOk(keys, required)
  {
    if i :| 0 <= i < |required| && required[i] !in keys { return false; }
    var indices: seq<nat> := [];
    var i := 0;
    while i < |required|
      invariant i == |indices| <= |required|
      invariant forall j | 0 <= j < i :: indices[j] == IndexOf(keys, required[j])
    {
      indices := indices + [IndexOf(keys, required[i])];
      i := i + 1;
    }
    ok := forall j, k | 0 <= j < k < |indices| :: indices[j] <= indices[k];
    if !ok {
      var j, k :| 0 <= j < k < |indices| && indices[j] > indices[k];
      assert IndexOf(keys, required[j]) > IndexOf(keys, required[k]);
    }
  }

  const ENABLED_KEYS: seq<string> := ["perf_counters_enabled", "kperf_timing_enabled", SENTINEL]

  predicate SwitchedOn(values: map<string, nat>, key: string) { key in values && values[key] == 1 }

  /** What the parser returns, and which of its four kinds of error it found none of. */
  datatype Parsed = Parsed(
    keys: seq<string>, values: map<string, nat>, ids: seq<nat>,
    linesOk: bool, requiredOk: bool, enabledOk: bool, groupsOk: bool)

  method ParsePerfSnapshot(lines: seq<string>, required: seq<string>) returns (r: Parsed)
    ensures r.linesOk <==> Clean(lines)
    ensures LinesOk(lines, |lines|) ==> Recovered(lines, |lines|, r.keys, r.values)
    ensures r.requiredOk <==> RequiredOk(r.keys, required)
    ensures r.enabledOk <==> forall key | key in ENABLED_KEYS :: SwitchedOn(r.values, key)
    ensures r.groupsOk ==> exists a: nat :: Laid(r.keys, a, r.ids)
    ensures forall a: nat, other: seq<nat> :: Laid(r.keys, a, other) ==> r.groupsOk && r.ids == other
  {
    hide LinesOk, Recovered, Laid;
    var keys: seq<string>, values: map<string, nat> := [], map[];
    var good := true;
    var n := 0;
    Nothing(lines);
    while n < |lines|
      invariant n <= |lines| && (forall k :: k in values <==> k in keys)
      invariant (good <==> LinesOk(lines, n)) && (good ==> Recovered(lines, n, keys, values))
    {
      var ok;
      keys, values, ok := ReadLine(lines, n, keys, values, good);
      good := good && ok;
      n := n + 1;
    }
    var requiredOk := CheckRequired(keys, required);
    var enabledOk := forall key | key in ENABLED_KEYS :: SwitchedOn(values, key);
    var ids, groupsOk := CheckGroups(keys);
    r := Parsed(keys, values, ids, good && lines != [] && |lines| <= MAX_LINES, requiredOk, enabledOk, groupsOk);
  }

  lemma Nothing(lines: seq<string>)
    ensures LinesOk(lines, 0) && Recovered(lines, 0, [], map[])
  {
  }
}
