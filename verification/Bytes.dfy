/** Bytes and the big-endian integer encodings shared by every wire format of the system. */
module Bytes {

  newtype byte = x: int | 0 <= x < 256

  type Bytes = seq<byte>

  const U32_LIMIT: nat := 0x1_0000_0000
  const U64_LIMIT: nat := 0x1_0000_0000_0000_0000

  function Pow256(k: nat): (p: nat)
    ensures p > 0
  {
    if k == 0 then 1 else 256 * Pow256(k - 1)
  }

  /** The k low-order bytes of n, most significant first. */
  function ToBE(n: nat, k: nat): (s: Bytes)
    ensures |s| == k
  {
    if k == 0 then [] else ToBE(n / 256, k - 1) + [(n % 256) as byte]
  }

  function FromBE(s: Bytes): nat {
    if s == [] then 0 else 256 * FromBE(s[..|s| - 1]) + s[|s| - 1] as nat
  }

  /** Byte i of k is the one of that weight, the first being the heaviest. */
  lemma {:induction false} BigEndianDigit(n: nat, k: nat, i: nat)
    requires i < k
    ensures ToBE(n, k)[i] as nat == n / Pow256(k - 1 - i) % 256
  {
    if i < k - 1 {
      BigEndianDigit(n / 256, k - 1, i);
      DivideTwice(n, 256, Pow256(k - 2 - i));
    }
  }

  lemma DivideTwice(n: nat, a: nat, b: nat)
    requires a > 0 && b > 0
    ensures a * b > 0 && n / a / b == n / (a * b)
  {
    var x, r := n / a, n % a;
    var q, u := x / b, x % b;
    DivideTwiceBy(a, b, x, q, u, r);
    QuotientUnique(n, a * b, q, a * u + r);
  }

  lemma DivideTwiceBy(a: nat, b: nat, x: nat, q: nat, u: nat, r: nat)
    requires r < a && u < b && x == b * q + u
    ensures a * x + r == (a * b) * q + (a * u + r) && a * u + r < a * b
  {
    TimesMonotone(a, u + 1, b);
  }

  lemma QuotientUnique(n: nat, d: nat, q: nat, r: nat)
    requires d > 0 && n == d * q + r && r < d
    ensures n / d == q
  {
    var p := n / d;
    TimesMonotone(d, p + 1, q);
    TimesMonotone(d, q + 1, p);
  }

  lemma TimesMonotone(d: nat, a: nat, b: nat)
    ensures a <= b ==> d * a <= d * b
  {}

  /** Decoding undoes encoding for every number that fits. */
  lemma {:induction false} FromBEToBE(n: nat, k: nat)
    requires n < Pow256(k)
    ensures FromBE(ToBE(n, k)) == n
  {
    if k > 0 {
      FromBEToBE(n / 256, k - 1);
      assert ToBE(n, k)[..k - 1] == ToBE(n / 256, k - 1);
    }
  }

  /** Encoding undoes decoding, so the encoding is a bijection onto strings of k bytes. */
  lemma {:induction false} ToBEFromBE(s: Bytes)
    ensures FromBE(s) < Pow256(|s|)
    ensures ToBE(FromBE(s), |s|) == s
  {
    if s != [] {
      ToBEFromBE(s[..|s| - 1]);
    }
  }

  lemma Limits()
    ensures Pow256(4) == U32_LIMIT && Pow256(8) == U64_LIMIT
  {}

  lemma ToBEInjective(m: nat, n: nat, k: nat)
    requires m < Pow256(k) && n < Pow256(k)
    requires ToBE(m, k) == ToBE(n, k)
    ensures m == n
  {
    FromBEToBE(m, k);
    FromBEToBE(n, k);
  }

  /** Two concatenations whose heads have one length agree only part by part. */
  lemma SplitEqual<T>(a: seq<T>, x: seq<T>, b: seq<T>, y: seq<T>)
    requires |a| == |b| && a + x == b + y
    ensures a == b && x == y
  {
    assert (a + x)[..|a|] == a && (b + y)[..|b|] == b;
    assert (a + x)[|a|..] == x && (b + y)[|b|..] == y;
  }
}
