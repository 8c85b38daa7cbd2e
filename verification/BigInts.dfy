/** Token amounts across the bridge: splitBigInt and reformBigInt of fvm.go, and Rust's hi/lo words. */
module BigInts {
  import opened Common

  const TWO_128: nat := TWO_64 * TWO_64

  /** A sign and 64-bit words, least significant first. */
  datatype BigInt = BigInt(negative: bool, words: seq<u64>)

  /** No leading zero word, and no negative zero. */
  predicate Normal(i: BigInt) {
    && (i.words == [] || i.words[|i.words| - 1] != 0)
    && (i.negative ==> i.words != [])
  }

  function Magnitude(words: seq<u64>): nat {
    if words == [] then 0 else words[0] + TWO_64 * Magnitude(words[1..])
  }

  function Value(i: BigInt): int {
    if i.negative then 0 - Magnitude(i.words) else Magnitude(i.words)
  }

  // ---------------------------------------------------------------- Go

  datatype SplitError = NegativeNumber | ExceedsMaxSize
  datatype HiLo = HiLo(hi: u64, lo: u64)

  function Split(i: BigInt): Result<HiLo, SplitError> {
    if i.negative then Err(NegativeNumber)
    else match |i.words|
      case 2 => Ok(HiLo(i.words[1], i.words[0]))
      case 1 => Ok(HiLo(0, i.words[0]))
      case 0 => Ok(HiLo(0, 0))
      case _ => Err(ExceedsMaxSize)
  }

  function Reform(w: HiLo): BigInt {
    if w.hi > 0 then BigInt(false, [w.lo, w.hi])
    else if w.lo > 0 then BigInt(false, [w.lo])
    else BigInt(false, [])
  }

  // ---------------------------------------------------------------- Rust

  function Pow2(k: nat): nat {
    if k == 0 then 1 else 2 * Pow2(k - 1)
  }

  /** Bitwise or, bit by bit. */
  function BitOr(a: nat, b: nat): nat
    decreases a + b
  {
    if a == 0 && b == 0 then 0
    else (if a % 2 == 1 || b % 2 == 1 then 1 else 0) + 2 * BitOr(a / 2, b / 2)
  }

  function ShiftLeft(a: nat, k: nat): nat {
    a * Pow2(k)
  }

  function Pack(w: HiLo): nat {
    BitOr(ShiftLeft(w.hi, 64), w.lo)
  }

  function Unpack(p: nat): HiLo
    requires p < TWO_128
  {
    HiLo(p / TWO_64, p % TWO_64)
  }

  // ---------------------------------------------------------------- proofs

  lemma {:induction false} BitOrZero(b: nat)
    ensures BitOr(0, b) == b
  {
    if b > 0 {
      BitOrZero(b / 2);
    }
  }

  lemma {:induction false} BitOrLeftZero(a: nat)
    ensures BitOr(a, 0) == a
  {
    if a > 0 {
      BitOrLeftZero(a / 2);
    }
  }

  /** A shifted number and one that fits below it have no bit in common, so or is plus. */
  lemma {:induction false} BitOrDisjoint(a: nat, b: nat, k: nat)
    requires b < Pow2(k)
    ensures BitOr(ShiftLeft(a, k), b) == ShiftLeft(a, k) + b
    decreases k
  {
    if k == 0 {
      BitOrLeftZero(a);
    } else {
      var half := a * Pow2(k - 1);
      assert ShiftLeft(a, k) == 2 * half;
      BitOrDisjoint(a, b / 2, k - 1);
      if half == 0 && b == 0 {
      } else {
        assert (2 * half) / 2 == half && (2 * half) % 2 == 0;
      }
    }
  }

  lemma {:induction false} Pow2Of64()
    ensures Pow2(64) == TWO_64
  {
    assert Pow2(16) == 0x1_0000 by {
      assert Pow2(8) == 256;
    }
    Pow2Add(16, 16);
    Pow2Add(32, 32);
  }

  lemma {:induction false} Pow2Add(j: nat, k: nat)
    ensures Pow2(j + k) == Pow2(j) * Pow2(k)
  {
    if j > 0 {
      Pow2Add(j - 1, k);
      assert 2 * Pow2(j - 1) * Pow2(k) == 2 * (Pow2(j - 1) * Pow2(k));
    }
  }

  /** Rust's shift and or is the number the words stand for. */
  lemma {:induction false} PackValue(w: HiLo)
    ensures Pack(w) == w.hi * TWO_64 + w.lo < TWO_128
  {
    Pow2Of64();
    BitOrDisjoint(w.hi, w.lo, 64);
  }

  lemma {:induction false} NormalPositive(words: seq<u64>)
    requires words != [] && words[|words| - 1] != 0
    ensures Magnitude(words) > 0
  {
    if |words| > 1 {
      NormalPositive(words[1..]);
    }
  }

  lemma {:induction false} ManyWords(words: seq<u64>)
    requires |words| > 2 && words[|words| - 1] != 0
    ensures Magnitude(words) >= TWO_128
  {
    var rest := words[1..][1..];
    assert rest[|rest| - 1] == words[|words| - 1];
    NormalPositive(rest);
    assert Magnitude(words[1..]) >= TWO_64;
  }

  lemma {:induction false} FewWords(words: seq<u64>)
    requires |words| <= 2
    ensures |words| == 2 ==> Magnitude(words) == words[0] + TWO_64 * words[1]
    ensures |words| == 1 ==> Magnitude(words) == words[0]
    ensures Magnitude(words) < TWO_128
  {
    if |words| == 2 {
      assert words[1..] == [words[1]];
      assert Magnitude([words[1]]) == words[1];
    }
  }

  /** Splitting fails exactly outside [0, 2^128); inside, Rust and Go both rebuild the number. */
  lemma {:induction false} SplitIff(i: BigInt)
    requires Normal(i)
    ensures Split(i).Err? <==> Value(i) < 0 || Value(i) >= TWO_128
    ensures Split(i) == Err(NegativeNumber) <==> Value(i) < 0
    ensures Split(i).Ok? ==> Pack(Split(i).value) == Value(i) && Reform(Split(i).value) == i
  {
    if i.words != [] {
      NormalPositive(i.words);
    }
    if |i.words| > 2 {
      ManyWords(i.words);
    } else {
      FewWords(i.words);
      if !i.negative {
        PackValue(Split(i).value);
      }
    }
  }

  /** What Rust sends back is rebuilt in normal form with the same value. */
  lemma {:induction false} ReformUnpack(p: nat)
    requires p < TWO_128
    ensures Normal(Reform(Unpack(p))) && Value(Reform(Unpack(p))) == p
    ensures Split(Reform(Unpack(p))) == Ok(Unpack(p)) && Pack(Unpack(p)) == p
  {
    FewWords(Reform(Unpack(p)).words);
    PackValue(Unpack(p));
  }
}
