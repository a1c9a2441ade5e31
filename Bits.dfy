/** Fixed-width binary strings: the form in which the assembler writes every field of a word. */
module Bits {

  const TwoTo11: nat := 2048
  const TwoTo31: nat := 0x8000_0000
  const TwoTo32: nat := 0x1_0000_0000

  function Pow2(n: nat): (r: nat)
    ensures r >= 1
  {
    if n == 0 then 1 else 2 * Pow2(n - 1)
  }

  predicate IsBitString(s: string) {
    forall i | 0 <= i < |s| :: s[i] == '0' || s[i] == '1'
  }

  function BitChar(n: nat): char {
    if n % 2 == 1 then '1' else '0'
  }

  /** The low `w` bits of `n`, most significant first, zero-padded to exactly `w` characters. */
  function Bin(n: nat, w: nat): (r: string)
    ensures |r| == w && IsBitString(r)
  {
    if w == 0 then "" else Bin(n / 2, w - 1) + [BitChar(n)]
  }

  /** The value of a binary string, most significant bit first. */
  function FromBin(s: string): nat {
    if s == [] then 0 else 2 * FromBin(s[..|s| - 1]) + (if s[|s| - 1] == '1' then 1 else 0)
  }

  lemma Pow2Widths()
    ensures Pow2(5) == 32 && Pow2(11) == TwoTo11 && Pow2(32) == TwoTo32
  {
    assert Pow2(8) == 256;
    assert Pow2(16) == 65536;
    assert Pow2(24) == 16777216;
    assert Pow2(32) == 0x1_0000_0000;
  }

  lemma MulAtLeast(d: nat, x: nat)
    requires x >= 1
    ensures d * x >= d
  {
  }

  /** Division with remainder is unique. */
  lemma DivModUnique(n: nat, d: nat, a: nat, r: nat)
    requires d >= 1 && n == d * a + r && r < d
    ensures n % d == r
  {
    var q, m := n / d, n % d;
    assert n == d * q + m;
    if a > q {
      MulAtLeast(d, a - q);
    } else if q > a {
      MulAtLeast(d, q - a);
    }
  }

  lemma DivModHalf(n: nat, p: nat)
    requires p >= 1
    ensures n % (2 * p) == 2 * ((n / 2) % p) + n % 2
  {
    var q, b := n / 2, n % 2;
    var a, c := q / p, q % p;
    assert q == p * a + c;
    assert n == 2 * q + b;
    assert n == (2 * p) * a + (2 * c + b);
    DivModUnique(n, 2 * p, a, 2 * c + b);
  }

  /** Reading back the low `w` bits of `n` gives `n` modulo 2^w. */
  lemma {:induction false} FromBinBin(n: nat, w: nat)
    ensures FromBin(Bin(n, w)) == n % Pow2(w)
  {
    if w > 0 {
      var s := Bin(n, w);
      assert s[..|s| - 1] == Bin(n / 2, w - 1);
      FromBinBin(n / 2, w - 1);
      DivModHalf(n, Pow2(w - 1));
    }
  }

  /** A value below 2^w survives the `w`-bit rendering unchanged. */
  lemma FromBinBinExact(n: nat, w: nat)
    requires n < Pow2(w)
    ensures FromBin(Bin(n, w)) == n
  {
    FromBinBin(n, w);
  }

  /** Every binary string is the rendering of its own value at its own width. */
  lemma {:induction false} BinFromBin(s: string)
    requires IsBitString(s)
    ensures FromBin(s) < Pow2(|s|)
    ensures Bin(FromBin(s), |s|) == s
  {
    if s != [] {
      var init := s[..|s| - 1];
      assert IsBitString(init) by {
        forall i | 0 <= i < |init| ensures init[i] == '0' || init[i] == '1' {
          assert init[i] == s[i];
        }
      }
      BinFromBin(init);
      var v := FromBin(s);
      assert v / 2 == FromBin(init);
      assert BitChar(v) == s[|s| - 1];
      assert s == init + [s[|s| - 1]];
    }
  }

  /** The two's-complement reading of a 32-bit pattern. */
  function ToSigned32(u: nat): int {
    if u >= TwoTo31 then u - TwoTo32 else u
  }

  /** The low 32 bits of `v` as an unsigned number: its residue modulo 2^32, also for negative `v` (Dafny's `%` is Euclidean). */
  function Mask32(v: int): (r: nat)
    ensures r < TwoTo32
  {
    v % TwoTo32
  }

  /** The 32-bit two's-complement pattern of `v` reads back as `v` whenever `v` fits in 32 signed bits. */
  lemma SignedRoundTrip(v: int)
    requires -(TwoTo31 as int) <= v < TwoTo31
    ensures ToSigned32(FromBin(Bin(Mask32(v), 32))) == v
  {
    Pow2Widths();
    FromBinBinExact(Mask32(v), 32);
    SignedOfMask(v);
  }

  /** Reading the residue of `v` modulo 2^32 as a signed number gives `v` back when `v` fits in 32 signed bits. */
  lemma SignedOfMask(v: int)
    requires -(TwoTo31 as int) <= v < TwoTo31
    ensures ToSigned32(Mask32(v)) == v
  {
    if v < 0 {
      assert Mask32(v) == v + TwoTo32;
    } else {
      assert Mask32(v) == v;
    }
  }
}
