/** Bytes, options and the flattening of a list of byte strings. */
module Prelude {

  type Byte = x: int | 0 <= x < 256

  type Bytes = seq<Byte>

  /** Transaction ids are 16 raw UUID bytes; only the codecs care about the width. */
  type Txid = Bytes

  const TXID_LEN: nat := 16
  const U32_LIMIT: nat := 0x1_0000_0000

  datatype Option<+T> = None | Some(value: T)

  datatype Result<+T, +E> = Ok(value: T) | Err(error: E)

  function Min(a: nat, b: nat): nat { if a <= b then a else b }

  function Max(a: nat, b: nat): nat { if a <= b then b else a }

  /** Rust's `saturating_sub`. */
  function SatSub(a: nat, b: nat): nat { if a <= b then 0 else a - b }

  /** Concatenation of a list of byte strings, in order. */
  function Flatten(parts: seq<Bytes>): Bytes
  {
    if parts == [] then [] else Flatten(parts[..|parts| - 1]) + parts[|parts| - 1]
  }

  lemma {:induction false} FlattenSnoc(parts: seq<Bytes>, p: Bytes)
    ensures Flatten(parts + [p]) == Flatten(parts) + p
  {
    assert (parts + [p])[..|parts|] == parts;
  }

  lemma {:induction false} FlattenConcat(a: seq<Bytes>, b: seq<Bytes>)
    ensures Flatten(a + b) == Flatten(a) + Flatten(b)
  {
    if b == [] {
      assert a + b == a;
    } else {
      var n := |b| - 1;
      FlattenConcat(a, b[..n]);
      assert a + b == (a + b[..n]) + [b[n]];
      FlattenSnoc(a + b[..n], b[n]);
      assert Flatten(a) + Flatten(b[..n]) + b[n] == Flatten(a) + (Flatten(b[..n]) + b[n]);
    }
  }

  lemma {:induction false} FlattenCons(p: Bytes, parts: seq<Bytes>)
    ensures Flatten([p] + parts) == p + Flatten(parts)
  {
    FlattenConcat([p], parts);
    assert Flatten([p]) == p by { FlattenSnoc([], p); }
  }

  /** The largest element of a non-empty finite set of naturals. */
  lemma {:induction false} HasMaximum(s: set<nat>) returns (m: nat)
    requires s != {}
    ensures m in s && forall k :: k in s ==> k <= m
  {
    var x :| x in s;
    if s == {x} {
      m := x;
    } else {
      var rest := s - {x};
      assert s == rest + {x};
      m := HasMaximum(rest);
      if m < x { m := x; }
    }
  }

  /** Sum of the values of a finite map. */
  ghost function Sum(m: map<Txid, nat>): nat
  {
    if m == map[] then 0 else var k :| k in m; m[k] + Sum(m - {k})
  }

  lemma {:induction false} SumOf(m: map<Txid, nat>, k: Txid)
    requires k in m
    ensures Sum(m) == m[k] + Sum(m - {k})
    decreases |m|
  {
    var x :| x in m && Sum(m) == m[x] + Sum(m - {x});
    if x != k {
      SumOf(m - {x}, k);
      SumOf(m - {k}, x);
      assert m - {x} - {k} == m - {k} - {x};
    }
  }

  lemma {:induction false} SumPut(m: map<Txid, nat>, k: Txid, v: nat)
    ensures Sum(m[k := v]) == v + Sum(m - {k})
    ensures Sum(m) == (if k in m then m[k] else 0) + Sum(m - {k})
  {
    SumOf(m[k := v], k);
    assert m[k := v] - {k} == m - {k};
    if k in m { SumOf(m, k); } else { assert m - {k} == m; }
  }

  lemma {:induction false} SumAdds(a: map<Txid, nat>, b: map<Txid, nat>, c: map<Txid, nat>)
    requires a.Keys == b.Keys == c.Keys
    requires forall k :: k in a ==> c[k] == a[k] + b[k]
    ensures Sum(c) == Sum(a) + Sum(b)
    decreases |a|
  {
    if a == map[] {
      assert b == map[] && c == map[];
    } else {
      var k :| k in a;
      SumOf(a, k);
      SumOf(b, k);
      SumOf(c, k);
      SumAdds(a - {k}, b - {k}, c - {k});
    }
  }
}
