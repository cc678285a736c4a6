/** The 16-bit Fletcher checksum of mip.c. Both accumulators are 8-bit, so the arithmetic is
    modulo 256 and not the ones'-complement form of Appendix I of RFC 1146. */
module Checksums {
  import opened Bytes

  /** The sum of the bytes. */
  function Sum(s: seq<byte>): nat {
    if s == [] then 0 else s[0] + Sum(s[1..])
  }

  /** The sum with weights |s|, |s| - 1, ..., 1. */
  function Weighted(s: seq<byte>): nat {
    if s == [] then 0 else |s| * s[0] + Weighted(s[1..])
  }

  /** The two check bytes a receiver expects after `s`. */
  function Fletcher(s: seq<byte>): seq<byte> {
    [Low8(Sum(s)), Low8(Weighted(s))]
  }

  lemma {:induction false} SumSnoc(s: seq<byte>, b: byte)
    ensures Sum(s + [b]) == Sum(s) + b
  {
    if s != [] {
      assert (s + [b])[1..] == s[1..] + [b];
      SumSnoc(s[1..], b);
    }
  }

  /** One more byte raises every weight by one. */
  lemma {:induction false} WeightedSnoc(s: seq<byte>, b: byte)
    ensures Weighted(s + [b]) == Weighted(s) + Sum(s + [b])
  {
    if s != [] {
      assert (s + [b])[1..] == s[1..] + [b];
      WeightedSnoc(s[1..], b);
      assert (|s| + 1) * s[0] == |s| * s[0] + s[0];
    }
  }

  lemma Low8Add(a: nat, b: nat)
    ensures Low8(Low8(a) + b) == Low8(a + b)
  {
    var q := a / 0x100;
    assert Low8(a) + b == a + b - q * 0x100;
  }

  /** One turn of the accumulator loop. */
  lemma FletcherStep(s: seq<byte>, b: byte)
    ensures Low8(Low8(Sum(s)) + b) == Low8(Sum(s + [b]))
    ensures Low8(Low8(Weighted(s)) + Low8(Sum(s + [b]))) == Low8(Weighted(s + [b]))
  {
    SumSnoc(s, b);
    WeightedSnoc(s, b);
    Low8Add(Sum(s), b);
    var w, t := Weighted(s), Sum(s + [b]);
    Low8Add(w, Low8(t));
    Low8Add(t, w);
  }

  /** A stretch of zeros, however long, has the check bytes zero. */
  lemma {:induction false} ZeroSums(s: seq<byte>)
    requires forall k :: 0 <= k < |s| ==> s[k] == 0
    ensures Fletcher(s) == [0, 0] && Sum(s) == 0 && Weighted(s) == 0
  {
    if s != [] { ZeroSums(s[1..]); }
  }

  // ---- What the checksum notices ----

  lemma {:induction false} SumUpdate(s: seq<byte>, i: nat, v: byte)
    requires i < |s|
    ensures Sum(s[i := v]) == Sum(s) - s[i] + v
  {
    if i > 0 {
      assert s[i := v][1..] == s[1..][i - 1 := v];
      SumUpdate(s[1..], i - 1, v);
    } else {
      assert s[i := v][1..] == s[1..];
    }
  }

  /** `s` with bytes `i` and `i + 1` exchanged. */
  function Swapped(s: seq<byte>, i: nat): seq<byte>
    requires i + 1 < |s|
  {
    s[i := s[i + 1]][i + 1 := s[i]]
  }

  lemma {:induction false} SwapSums(s: seq<byte>, i: nat)
    requires i + 1 < |s|
    ensures Sum(Swapped(s, i)) == Sum(s)
    ensures Weighted(Swapped(s, i)) == Weighted(s) + s[i + 1] - s[i]
  {
    var t := Swapped(s, i);
    if i > 0 {
      assert t[1..] == Swapped(s[1..], i - 1);
      SwapSums(s[1..], i - 1);
    } else {
      var n, a, b := |s|, s[0], s[1];
      assert t[1..][1..] == s[1..][1..];
      assert n * b + (n - 1) * a == n * a + (n - 1) * b + b - a by {
        assert n * b == (n - 1) * b + b && n * a == (n - 1) * a + a;
      }
    }
  }

  lemma Low8Differs(a: nat, b: nat)
    requires a < b < a + 256
    ensures Low8(a) != Low8(b)
  {
  }
}
