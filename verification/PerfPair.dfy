/** Two `/proc/kperf` snapshots and the comparison scripts/run_rust_hello_bench.py makes of them. */
module PerfPair {
  import opened Common
  import opened PerfText
  import opened PerfParser
  import opened PerfRoundTrip

  /** The keys that are not syscall keys, in order. */
  function NonSyscall(keys: seq<string>): seq<string> {
    if keys == [] then []
    else
      var front, last := NonSyscall(keys[..|keys| - 1]), keys[|keys| - 1];
      if SyscallKey(last).None? then front + [last] else front
  }

  /** The key and group comparison of `validate_perf_snapshot_pair`: `ok` when it adds no error. */
  method ComparePair(before: seq<string>, beforeIds: seq<nat>, after: seq<string>, afterIds: seq<nat>) returns (ok: bool)
    ensures ok <==> NonSyscall(before) == NonSyscall(after) && forall id | id in beforeIds :: id in afterIds
  {
    var beforeKeys := FilterKeys(before);
    var afterKeys := FilterKeys(after);
    ok := beforeKeys == afterKeys && forall id | id in beforeIds :: id in afterIds;
  }

  method FilterKeys(keys: seq<string>) returns (r: seq<string>)
    ensures r == NonSyscall(keys)
  {
    hide SyscallKey;
    r := [];
    var i := 0;
    while i < |keys|
      invariant i <= |keys| && r == NonSyscall(keys[..i])
    {
      assert keys[..i + 1][..i] == keys[..i];
      if SyscallKey(keys[i]).None? { r := r + [keys[i]]; }
      i := i + 1;
    }
    assert keys[..i] == keys;
  }

  lemma {:induction false} NonSyscallJoin(a: seq<string>, b: seq<string>)
    ensures NonSyscall(a + b) == NonSyscall(a) + NonSyscall(b)
    decreases |b|
  {
    hide SyscallKey;
    if b == [] {
      assert a + b == a;
    } else {
      assert (a + b)[..|a + b| - 1] == a + b[..|b| - 1];
      NonSyscallJoin(a, b[..|b| - 1]);
    }
  }

  lemma {:induction false} AllKept(keys: seq<string>)
    requires forall i | 0 <= i < |keys| :: SyscallKey(keys[i]).None?
    ensures NonSyscall(keys) == keys
    decreases |keys|
  {
    hide SyscallKey;
    if keys != [] { AllKept(keys[..|keys| - 1]); }
  }

  lemma {:induction false} AllDropped(keys: seq<string>)
    requires forall i | 0 <= i < |keys| :: SyscallKey(keys[i]).Some?
    ensures NonSyscall(keys) == []
    decreases |keys|
  {
    hide SyscallKey;
    if keys != [] { AllDropped(keys[..|keys| - 1]); }
  }

  lemma KeysJoin(a: seq<Entry>, b: seq<Entry>)
    ensures KeysOf(a + b) == KeysOf(a) + KeysOf(b)
  {
  }

  lemma SandwichKeepsRest(head: seq<Entry>, block: seq<Entry>, post: seq<Entry>, ids: seq<nat>)
    requires Sandwich(head, block, post, ids)
    ensures NonSyscall(KeysOf(head + block + post)) == KeysOf(head) + KeysOf(post)
  {
    hide SyscallKey, EntryOk, Distinct, Ascending;
    forall j | 0 <= j < |block| ensures SyscallKey(KeysOf(block)[j]).Some? { BlockKey(head, block, post, ids, j); }
    AllKept(KeysOf(head));
    AllKept(KeysOf(post));
    AllDropped(KeysOf(block));
    hide Sandwich, Other, KeysOf, NonSyscall;
    KeysJoin(head + block, post);
    KeysJoin(head, block);
    NonSyscallJoin(KeysOf(head) + KeysOf(block), KeysOf(post));
    NonSyscallJoin(KeysOf(head), KeysOf(block));
  }

  lemma GroupKeysFixed(stem: string, a: Stat, b: Stat, fa: nat, fb: nat)
    ensures KeysOf(Group(stem, a, fa)) == KeysOf(Group(stem, b, fb))
  {
    hide Figures;
  }

  lemma {:induction false} PointKeysFixed(names: seq<string>, a: seq<Stat>, b: seq<Stat>, fa: nat, fb: nat, n: nat)
    requires |names| == |a| == |b| && n <= |names|
    ensures KeysOf(PointEntries(names, a, fa, n)) == KeysOf(PointEntries(names, b, fb, n))
    decreases n
  {
    hide Group, KeysOf;
    if n > 0 {
      var stem := Stem(names[n - 1]);
      PointKeysFixed(names, a, b, fa, fb, n - 1);
      GroupKeysFixed(stem, a[n - 1], b[n - 1], fa, fb);
      KeysJoin(PointEntries(names, a, fa, n - 1), Group(stem, a[n - 1], fa));
      KeysJoin(PointEntries(names, b, fb, n - 1), Group(stem, b[n - 1], fb));
    }
  }

  lemma HeadKeysFixed(p: seq<Entry>, q: seq<Entry>, names: seq<string>, a: seq<Stat>, b: seq<Stat>, fa: nat, fb: nat)
    requires |names| == |a| == |b| && KeysOf(p) == KeysOf(q)
    ensures KeysOf(Head(p, names, a, fa)) == KeysOf(Head(q, names, b, fb))
  {
    hide PointEntries, KeysOf;
    var first, last := [Entry("kperf_timing_enabled", 1)], [Entry(SENTINEL, 1)];
    var x, y := PointEntries(names, a, fa, |names|), PointEntries(names, b, fb, |names|);
    PointKeysFixed(names, a, b, fa, fb, |names|);
    KeysJoin(first, x);
    KeysJoin(first, y);
    KeysJoin(first + x, last);
    KeysJoin(first + y, last);
    KeysJoin(p, first + x + last);
    KeysJoin(q, first + y + last);
  }

  /**
    Two printed snapshots of growing counters pass the pair check: the other
    sections' keys are the same, and no syscall group is lost.
  */
  lemma PrintedPairAgrees(
    pre: seq<Entry>, stats: seq<Stat>, syscalls: seq<Stat>, post: seq<Entry>,
    pre': seq<Entry>, stats': seq<Stat>, syscalls': seq<Stat>, post': seq<Entry>, names: seq<string>, freq: nat)
    requires Printable(pre, names, stats, syscalls, freq, post) && Printable(pre', names, stats', syscalls', freq, post')
    requires KeysOf(pre) == KeysOf(pre') && KeysOf(post) == KeysOf(post')
    requires forall i | 0 <= i < SLOTS :: syscalls[i].calls <= syscalls'[i].calls
    ensures var a := pre + TimingEntries(names, stats, syscalls, freq) + post;
      var b := pre' + TimingEntries(names, stats', syscalls', freq) + post';
      && NonSyscall(KeysOf(a)) == NonSyscall(KeysOf(b))
      && forall id | id in Active(syscalls, SLOTS) :: id in Active(syscalls', SLOTS)
  {
    hide Sandwich, Head, TimingEntries, SyscallEntries, Active, KeysOf, NonSyscall, Other, Distinct, NameOk, InRange, AllForeign;
    PrintedIsSandwich(pre, names, stats, syscalls, freq, post);
    PrintedIsSandwich(pre', names, stats', syscalls', freq, post');
    TimingSplits(pre, names, stats, syscalls, freq, post);
    TimingSplits(pre', names, stats', syscalls', freq, post');
    SandwichKeepsRest(Head(pre, names, stats, freq), SyscallEntries(syscalls, freq, SLOTS), post, Active(syscalls, SLOTS));
    SandwichKeepsRest(Head(pre', names, stats', freq), SyscallEntries(syscalls', freq, SLOTS), post', Active(syscalls', SLOTS));
    HeadKeysFixed(pre, pre', names, stats, stats', freq, freq);
    forall id | id in Active(syscalls, SLOTS) ensures id in Active(syscalls', SLOTS) {
      GroupsOnlyGrow(syscalls, syscalls', id);
    }
  }
}
