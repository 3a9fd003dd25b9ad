/** Little-endian encodings and concatenated records, shared by the layout models. */
module Bytes {

  type byte = x: nat | x < 256 witness 0

  function Pow256(k: nat): (r: nat)
    ensures r >= 1
  {
    if k == 0 then 1 else 256 * Pow256(k - 1)
  }

  /** `to_le_bytes` of a value, in `width` bytes. */
  function LE(value: nat, width: nat): (s: seq<byte>)
    ensures |s| == width
  {
    if width == 0 then [] else [value % 256] + LE(value / 256, width - 1)
  }

  function FromLE(s: seq<byte>): nat {
    if s == [] then 0 else s[0] + 256 * FromLE(s[1..])
  }

  lemma {:induction false} LERoundTrip(value: nat, width: nat)
    requires value < Pow256(width)
    ensures FromLE(LE(value, width)) == value
    decreases width
  {
    if width > 0 { LERoundTrip(value / 256, width - 1); }
  }

  function Zeros(n: nat): (s: seq<byte>)
    ensures |s| == n && forall i | 0 <= i < n :: s[i] == 0
  {
    seq(n, _ => 0)
  }

  /** The concatenation of fields. */
  function Cat(fields: seq<seq<byte>>): seq<byte> {
    if fields == [] then [] else Cat(fields[..|fields| - 1]) + fields[|fields| - 1]
  }

  /** Where field `i` starts. */
  function At(fields: seq<seq<byte>>, i: nat): nat
    requires i <= |fields|
  {
    if i == 0 then 0 else At(fields, i - 1) + |fields[i - 1]|
  }

  lemma AtNext(fields: seq<seq<byte>>, i: nat)
    requires i < |fields|
    ensures At(fields, i + 1) == At(fields, i) + |fields[i]| && At(fields, 0) == 0
  {
  }

  lemma {:induction false} AtPrefix(fields: seq<seq<byte>>, k: nat, i: nat)
    requires i <= k <= |fields|
    ensures At(fields[..k], i) == At(fields, i)
  {
    if i > 0 { AtPrefix(fields, k, i - 1); }
  }

  lemma {:induction false} CatLength(fields: seq<seq<byte>>)
    ensures |Cat(fields)| == At(fields, |fields|)
    decreases |fields|
  {
    if fields != [] {
      CatLength(fields[..|fields| - 1]);
      AtPrefix(fields, |fields| - 1, |fields| - 1);
    }
  }

  lemma {:induction false} AtMonotone(fields: seq<seq<byte>>, i: nat, j: nat)
    requires i <= j <= |fields|
    ensures At(fields, i) <= At(fields, j)
    decreases j
  {
    if i < j { AtMonotone(fields, i, j - 1); }
  }

  /** Field `i` is found at its offset: fields neither overlap nor leave the record. */
  lemma {:induction false} CatSlice(fields: seq<seq<byte>>, i: nat)
    requires i < |fields|
    ensures At(fields, i) + |fields[i]| <= |Cat(fields)|
    ensures Cat(fields)[At(fields, i)..At(fields, i) + |fields[i]|] == fields[i]
    decreases |fields|
  {
    var last := |fields| - 1;
    CatLength(fields[..last]);
    AtPrefix(fields, last, last);
    if i < last {
      CatSlice(fields[..last], i);
      AtPrefix(fields, last, i);
      AtMonotone(fields, i + 1, last);
    }
  }

  lemma CatStep(fields: seq<seq<byte>>, k: nat)
    requires k < |fields|
    ensures Cat(fields[..k + 1]) == Cat(fields[..k]) + fields[k]
    ensures |Cat(fields[..k])| == At(fields, k)
  {
    assert fields[..k + 1][..k] == fields[..k];
    CatLength(fields[..k]);
    AtPrefix(fields, k, k);
  }

  /** Overwrite part of a buffer. */
  function Put(m: seq<byte>, off: nat, bytes: seq<byte>): (r: seq<byte>)
    requires off + |bytes| <= |m|
    ensures |r| == |m|
  {
    m[..off] + bytes + m[off + |bytes|..]
  }

  /** The record `table` sits in `m` at `base`. */
  predicate Holds(m: seq<byte>, base: nat, table: seq<byte>) {
    base + |table| <= |m| && m[base..base + |table|] == table
  }

  lemma SliceOfSlice(m: seq<byte>, a: nat, b: nat, x: nat, y: nat)
    requires a <= b <= |m| && x <= y <= b - a
    ensures m[a..b][x..y] == m[a + x..a + y]
  {
    forall i | 0 <= i < y - x ensures m[a..b][x..y][i] == m[a + x..a + y][i] {}
  }

  lemma HoldsField(m: seq<byte>, base: nat, fields: seq<seq<byte>>, i: nat)
    requires Holds(m, base, Cat(fields)) && i < |fields|
    ensures Holds(m, base + At(fields, i), fields[i])
  {
    hide Cat, At;
    CatSlice(fields, i);
    var t, a := Cat(fields), At(fields, i);
    SliceOfSlice(m, base, base + |t|, a, a + |fields[i]|);
    assert m[base + a..base + a + |fields[i]|] == t[a..a + |fields[i]|];
  }

  lemma PutElsewhere(m: seq<byte>, off: nat, bytes: seq<byte>, base: nat, table: seq<byte>)
    requires off + |bytes| <= |m| && Holds(m, base, table)
    requires base + |table| <= off || off + |bytes| <= base
    ensures Holds(Put(m, off, bytes), base, table)
  {
    var m' := Put(m, off, bytes);
    forall i | base <= i < base + |table| ensures m'[i] == m[i] {}
    assert m'[base..base + |table|] == m[base..base + |table|];
  }

  lemma PutHere(m: seq<byte>, off: nat, bytes: seq<byte>)
    requires off + |bytes| <= |m|
    ensures Holds(Put(m, off, bytes), off, bytes)
  {
  }

  lemma PutTwice(m: seq<byte>, off: nat, a: seq<byte>, b: seq<byte>)
    requires off + |a| <= |m| && |a| == |b|
    ensures Put(Put(m, off, a), off, b) == Put(m, off, b)
  {
  }
}
