/** Byte strings and the two ways the program cuts and joins them. */
module Bytes {
  type byte = x: int | 0 <= x < 256

  datatype Option<+T> = None | Some(value: T)

  function Min(a: int, b: int): int { if a < b then a else b }

  function Max(a: int, b: int): int { if a < b then b else a }

  /** `bytes(n)`: n zero bytes. */
  function Zeros(n: nat): seq<byte> { seq(n, _ => 0) }

  /** `b"".join(parts)`. */
  function Join<T>(parts: seq<seq<T>>): seq<T> {
    if parts == [] then [] else parts[0] + Join(parts[1..])
  }

  /** The pieces `s[0:chunk], s[chunk:2*chunk], ...` of a byte string. */
  function Chunked(s: seq<byte>, chunk: nat): seq<seq<byte>>
    requires chunk >= 1
    decreases |s|
  {
    if s == [] then [] else
      var n := Min(chunk, |s|);
      [s[..n]] + Chunked(s[n..], chunk)
  }

  lemma {:induction false} JoinAppend<T>(a: seq<seq<T>>, b: seq<seq<T>>)
    ensures Join(a + b) == Join(a) + Join(b)
  {
    if a == [] {
      assert a + b == b;
    } else {
      assert (a + b)[1..] == a[1..] + b;
      JoinAppend(a[1..], b);
    }
  }

  lemma JoinNone<T>()
    ensures Join<T>([]) == []
  {
  }

  lemma JoinCons<T>(x: seq<T>, a: seq<seq<T>>)
    ensures Join([x] + a) == x + Join(a)
  {
    assert ([x] + a)[1..] == a;
  }

  lemma SliceSplit<T>(s: seq<T>, a: nat, b: nat, c: nat)
    requires a <= b <= c <= |s|
    ensures s[a..b] + s[b..c] == s[a..c]
  {
  }

  lemma SliceTwice<T>(s: seq<T>, a: nat, b: nat)
    requires a <= b <= |s|
    ensures s[a..][..b - a] == s[a..b] && s[a..][b - a..] == s[b..]
  {
  }

  lemma TakeNext<T>(before: seq<T>, s: seq<T>, k: nat)
    requires k < |s|
    ensures before + s[..k] + [s[k]] == before + s[..k + 1]
  {
  }

  lemma JoinSnoc<T>(a: seq<seq<T>>, x: seq<T>)
    ensures Join(a + [x]) == Join(a) + x
  {
    JoinAppend(a, [x]);
    assert Join([x]) == x;
  }

  /** Cutting loses nothing and every piece fits. */
  lemma {:induction false} ChunkedJoins(s: seq<byte>, chunk: nat)
    requires chunk >= 1
    ensures Join(Chunked(s, chunk)) == s
    ensures forall p :: p in Chunked(s, chunk) ==> 1 <= |p| <= chunk
    decreases |s|
  {
    if s != [] {
      var n := Min(chunk, |s|);
      ChunkedJoins(s[n..], chunk);
      assert s == s[..n] + s[n..];
    }
  }

  /** There are ceil(|s| / chunk) pieces. */
  lemma {:induction false} ChunkedCount(s: seq<byte>, chunk: nat)
    requires chunk >= 1
    ensures |Chunked(s, chunk)| == (|s| + chunk - 1) / chunk
    decreases |s|
  {
    if 0 < |s| <= chunk {
      assert Chunked(s[|s|..], chunk) == [];
      DivIs(|s| + chunk - 1, chunk, 1);
    } else if |s| > chunk {
      ChunkedCount(s[chunk..], chunk);
      DivStep(|s| - 1, chunk);
    } else {
      DivIs(chunk - 1, chunk, 0);
    }
  }

  lemma MulMonotone(a: int, b: int, d: nat)
    requires a <= b
    ensures a * d <= b * d
  {
  }

  lemma DivIs(a: nat, d: nat, q: nat)
    requires d >= 1 && q * d <= a < q * d + d
    ensures a / d == q
  {
    var p := a / d;
    var r := a % d;
    assert a == p * d + r;
    if p + 1 <= q {
      MulMonotone(p + 1, q, d);
    }
    if q + 1 <= p {
      MulMonotone(q + 1, p, d);
    }
  }

  lemma DivStep(a: nat, d: nat)
    requires d >= 1
    ensures (a + d) / d == a / d + 1
  {
    var q := a / d;
    assert (q + 1) * d == q * d + d;
    DivIs(a + d, d, q + 1);
  }

  /** Splitting a product along a sum; keeps nonlinear arithmetic in one place. */
  lemma MulSplit(a: int, b: int, w: int)
    requires 0 <= b <= a && 0 <= w
    ensures a * w - b * w == (a - b) * w
    ensures 0 <= b * w <= a * w
  {
  }
}
