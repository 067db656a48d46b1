/** CRC32C: the table-driven, four-stride computation and masking (util/crc32c.cc, util/crc32c.h).
    The specification is bit-at-a-time division by the Castagnoli polynomial of section 12.1 of
    RFC 3720, bits reflected. 32-bit words are naturals below 2^32. */
module Crc32c {
  import opened Dbformat

  const POLYNOMIAL: nat := 0x82F63B78
  const ONES: nat := 0xFFFF_FFFF
  const WORD: nat := 0x1_0000_0000
  const MASK_DELTA: nat := 0xa282ead8

  // ---------- exclusive or ----------

  function Xor(a: nat, b: nat): nat
    decreases a + b
  {
    if a == 0 && b == 0 then 0 else 2 * Xor(a / 2, b / 2) + (a + b) % 2
  }

  lemma {:induction false} XorHalves(a: nat, b: nat)
    ensures Xor(a, b) / 2 == Xor(a / 2, b / 2) && Xor(a, b) % 2 == (a + b) % 2
  {
  }

  lemma {:induction false} XorZero(a: nat)
    ensures Xor(a, 0) == a == Xor(0, a)
  {
    if a > 0 {
      XorZero(a / 2);
    }
  }

  lemma {:induction false} XorCommutes(a: nat, b: nat)
    ensures Xor(a, b) == Xor(b, a)
    decreases a + b
  {
    if a + b > 0 {
      XorCommutes(a / 2, b / 2);
    }
  }

  lemma {:induction false} XorAssociates(a: nat, b: nat, c: nat)
    ensures Xor(Xor(a, b), c) == Xor(a, Xor(b, c))
    decreases a + b + c
  {
    if a + b + c > 0 {
      XorAssociates(a / 2, b / 2, c / 2);
      var x, y := Xor(a, b), Xor(b, c);
      XorHalves(a, b);
      XorHalves(b, c);
      XorHalves(x, c);
      XorHalves(a, y);
      ParitySum(x, a + b, c);
      ParitySum(y, b + c, a);
    }
  }

  lemma {:induction false} ParitySum(x: nat, y: nat, c: nat)
    requires x % 2 == y % 2
    ensures (x + c) % 2 == (y + c) % 2
  {
  }

  lemma {:induction false} XorSelf(a: nat)
    ensures Xor(a, a) == 0
  {
    if a > 0 {
      XorSelf(a / 2);
    }
  }

  lemma {:induction false} XorSwap(a: nat, p: nat, b: nat, q: nat)
    ensures Xor(Xor(a, p), Xor(b, q)) == Xor(Xor(a, b), Xor(p, q))
  {
    XorAssociates(a, p, Xor(b, q));
    XorAssociates(p, b, q);
    XorCommutes(p, b);
    XorAssociates(b, p, q);
    XorAssociates(a, b, Xor(p, q));
  }

  function Pow2(k: nat): nat {
    if k == 0 then 1 else 2 * Pow2(k - 1)
  }

  lemma {:induction false} XorBound(a: nat, b: nat, k: nat)
    requires a < Pow2(k) && b < Pow2(k)
    ensures Xor(a, b) < Pow2(k)
    decreases k
  {
    if k > 0 {
      XorBound(a / 2, b / 2, k - 1);
    }
  }

  /** Words with no common bits add up. */
  lemma {:induction false} XorDisjoint(m: nat, r: nat, k: nat)
    requires r < Pow2(k)
    ensures Xor(m * Pow2(k), r) == m * Pow2(k) + r
    decreases k
  {
    if k == 0 {
      XorZero(m);
    } else {
      var h := m * Pow2(k - 1);
      XorDisjoint(m, r / 2, k - 1);
      XorDouble(h, r);
      DoubleFactor(m, Pow2(k - 1));
    }
  }

  lemma {:induction false} DoubleFactor(m: nat, p: nat)
    ensures m * (2 * p) == 2 * (m * p)
  {
  }

  lemma {:induction false} XorDouble(h: nat, r: nat)
    requires Xor(h, r / 2) == h + r / 2
    ensures Xor(2 * h, r) == 2 * h + r
  {
    XorHalves(2 * h, r);
  }

  // ---------- the specification ----------

  function Pick(c: nat, p: nat): nat {
    if c % 2 == 1 then p else 0
  }

  /** One division step. */
  function BitStep(c: nat): nat {
    Xor(c / 2, Pick(c, POLYNOMIAL))
  }

  function Steps(c: nat, n: nat): nat {
    if n == 0 then c else BitStep(Steps(c, n - 1))
  }

  /** The register after the bytes of `data`, one at a time. */
  function Register(l: nat, data: Bytes): nat
    decreases |data|
  {
    if data == [] then l else Register(Steps(Xor(l, data[0]), 8), data[1..])
  }

  function Crc(crc: nat, data: Bytes): nat {
    Xor(Register(Xor(crc, ONES), data), ONES)
  }

  /** The bytes of a word, least significant first. */
  function Load(bytes: Bytes): nat {
    if bytes == [] then 0 else bytes[0] + 256 * Load(bytes[1..])
  }

  // ---------- the register is linear ----------

  lemma {:induction false} PickLinear(a: nat, b: nat, p: nat)
    ensures Pick(Xor(a, b), p) == Xor(Pick(a, p), Pick(b, p))
  {
    XorHalves(a, b);
    XorSelf(p);
    XorZero(p);
  }

  lemma {:induction false} BitLinear(a: nat, b: nat)
    ensures BitStep(Xor(a, b)) == Xor(BitStep(a), BitStep(b))
  {
    XorHalves(a, b);
    PickLinear(a, b, POLYNOMIAL);
    XorSwap(a / 2, Pick(a, POLYNOMIAL), b / 2, Pick(b, POLYNOMIAL));
  }

  lemma {:induction false} StepLinear(c: nat, a: nat, b: nat)
    requires c == Xor(a, b)
    ensures BitStep(c) == Xor(BitStep(a), BitStep(b))
  {
    BitLinear(a, b);
  }

  lemma {:induction false} StepsLinear(a: nat, b: nat, n: nat)
    ensures Steps(Xor(a, b), n) == Xor(Steps(a, n), Steps(b, n))
  {
    if n > 0 {
      StepsLinear(a, b, n - 1);
      StepLinear(Steps(Xor(a, b), n - 1), Steps(a, n - 1), Steps(b, n - 1));
    }
  }

  lemma {:induction false} StepsAdd(c: nat, m: nat, n: nat)
    ensures Steps(Steps(c, m), n) == Steps(c, m + n)
  {
    if n > 0 {
      StepsAdd(c, m, n - 1);
    }
  }

  lemma {:induction false} StepsZero(n: nat)
    ensures Steps(0, n) == 0
  {
    if n > 0 {
      StepsZero(n - 1);
    }
  }

  lemma {:induction false} StepsBound(c: nat, n: nat)
    requires c < WORD
    ensures Steps(c, n) < WORD
  {
    if n > 0 {
      StepsBound(c, n - 1);
      WordIs();
      XorBound(Steps(c, n - 1) / 2, Pick(Steps(c, n - 1), POLYNOMIAL), 32);
    }
  }

  lemma {:induction false} WordIs()
    ensures Pow2(8) == 256 && Pow2(16) == 256 * 256 && Pow2(24) == 256 * 256 * 256 && Pow2(32) == WORD
  {
    assert Pow2(4) == 16;
    assert Pow2(12) == 4096;
    assert Pow2(20) == 4096 * 256;
    assert Pow2(28) == 4096 * 256 * 256;
  }

  /** Clear low bits are shifted out without a trace. */
  lemma {:induction false} StepsShift(m: nat, k: nat)
    ensures Steps(m * Pow2(k), k) == m
    decreases k
  {
    if k > 0 {
      assert m * Pow2(k) == (2 * m) * Pow2(k - 1);
      StepsShift(2 * m, k - 1);
      XorZero(m);
    }
  }

  lemma {:induction false} RegisterConcat(l: nat, a: Bytes, b: Bytes)
    ensures Register(l, a + b) == Register(Register(l, a), b)
    decreases |a|
  {
    if a == [] {
      assert a + b == b;
    } else {
      assert (a + b)[1..] == a[1..] + b;
      RegisterConcat(Steps(Xor(l, a[0]), 8), a[1..], b);
    }
  }

  /** The low bits of a longer word can be fed first. */
  lemma {:induction false} FeedBits(l: nat, b: nat, rest: nat, high: nat, k: nat)
    requires b < Pow2(k) && high == rest * Pow2(k)
    ensures Steps(Xor(l, b + high), k) == Xor(Steps(Xor(l, b), k), rest)
  {
    XorDisjoint(rest, b, k);
    XorCommutes(high, b);
    XorAssociates(l, b, high);
    StepsLinear(Xor(l, b), high, k);
    StepsShift(rest, k);
  }

  lemma {:induction false} FeedByte(l: nat, b: Byte, rest: nat)
    ensures Steps(Xor(l, b + 256 * rest), 8) == Xor(Steps(Xor(l, b), 8), rest)
  {
    WordIs();
    FeedBits(l, b, rest, 256 * rest, 8);
  }

  /** Bytes may be fed in all at once, as one word. */
  lemma {:induction false} RegisterWord(l: nat, bytes: Bytes, n: nat)
    requires n == 8 * |bytes|
    ensures Register(l, bytes) == Steps(Xor(l, Load(bytes)), n)
    decreases |bytes|
  {
    if bytes == [] {
      XorZero(l);
    } else {
      var rest := Load(bytes[1..]);
      var fed := Steps(Xor(l, bytes[0]), 8);
      assert Register(l, bytes) == Register(fed, bytes[1..]) && Load(bytes) == bytes[0] + 256 * rest;
      RegisterWord(fed, bytes[1..], n - 8);
      FeedByte(l, bytes[0], rest);
      StepsAdd(Xor(l, Load(bytes)), 8, n - 8);
    }
  }

  // ---------- the tables ----------

  /** Entry `i` of the byte table. */
  function ByteTable(i: nat): nat
    requires i < 256
  {
    Steps(i, 8)
  }

  /** Entry `i` of stride table `k`: what byte 3 - k of a word has become sixteen zero bytes on. */
  function StrideTable(k: nat, i: nat): nat
    requires k < 4 && i < 256
  {
    Steps(i * match k case 0 => 16777216 case 1 => 65536 case 2 => 256 case 3 => 1, 128)
  }

  /** The byte at a time step: STEP1. */
  function Step1(l: nat, b: Byte): (r: nat)
    requires l < WORD
    ensures r == Steps(Xor(l, b), 8) && r < WORD
  {
    ByteBound(l % 256, b);
    TableStep(l, b);
    Xor(ByteTable(Xor(l % 256, b)), l / 256)
  }

  lemma {:induction false} ByteBound(a: nat, b: nat)
    requires a < 256 && b < 256
    ensures Xor(a, b) < 256
  {
    WordIs();
    XorBound(a, b, 8);
  }

  lemma {:induction false} TableStep(l: nat, b: Byte)
    requires l < WORD
    ensures Xor(l % 256, b) < 256
    ensures Xor(ByteTable(Xor(l % 256, b)), l / 256) == Steps(Xor(l, b), 8) < WORD
  {
    var n := 8;
    TableBits(l, b, n);
    WordIs();
    XorBound(l, b, 32);
    StepsBound(Xor(l, b), n);
  }

  lemma {:induction false} TableBits(l: nat, b: Byte, n: nat)
    requires n == 8
    ensures Xor(l % 256, b) < 256
    ensures Xor(Steps(Xor(l % 256, b), n), l / 256) == Steps(Xor(l, b), n)
  {
    var low := l % 256;
    ByteBound(low, b);
    XorCommutes(l, b);
    XorCommutes(low, b);
    WordIs();
    FeedBits(b, low, l / 256, l - low, n);
  }

  /** A word is the sum of its bytes. */
  lemma {:induction false} SplitWord(c: nat, b0: nat, b1: nat, b2: nat, b3: nat)
    requires c < WORD
    requires b0 == c % 256 && b1 == (c / 256) % 256 && b2 == (c / 65536) % 256 && b3 == c / 16777216
    ensures c == Xor(Xor(Xor(b0, b1 * 256), b2 * 65536), b3 * 16777216)
  {
    SplitSum(c);
    SplitXor(b0, b1, b2, b3);
  }

  lemma {:induction false} SplitSum(c: nat)
    ensures c == c % 256 + (c / 256) % 256 * 256 + (c / 65536) % 256 * 65536 + c / 16777216 * 16777216
  {
    var d := c / 256;
    var e := d / 256;
    DivDiv(c, 256);
    DivDiv(c, 65536);
    assert c == c % 256 + 256 * d;
    assert d == d % 256 + 256 * e;
    assert e == e % 256 + 256 * (e / 256);
  }

  lemma {:induction false} DivDiv(c: nat, m: nat)
    requires m == 256 || m == 65536
    ensures c / m / 256 == c / (m * 256)
  {
  }

  lemma {:induction false} SplitXor(b0: nat, b1: nat, b2: nat, b3: nat)
    requires b0 < 256 && b1 < 256 && b2 < 256
    ensures Xor(Xor(Xor(b0, b1 * 256), b2 * 65536), b3 * 16777216) == b0 + b1 * 256 + b2 * 65536 + b3 * 16777216
  {
    WordIs();
    Joined(b0, b1, 8);
    Joined(b0 + b1 * 256, b2, 16);
    Joined(b0 + b1 * 256 + b2 * 65536, b3, 24);
  }

  lemma {:induction false} Joined(low: nat, high: nat, k: nat)
    requires low < Pow2(k)
    ensures Xor(low, high * Pow2(k)) == low + high * Pow2(k)
  {
    XorDisjoint(high, low, k);
    XorCommutes(high * Pow2(k), low);
  }

  /** The step of one stride: STEP4. */
  function Step4(c: nat, w: nat): (r: nat)
    requires c < WORD && w < WORD
    ensures r == Xor(w, Steps(c, 128)) && r < WORD
  {
    StrideStep(c, w);
    Xor(Xor(Xor(Xor(w, StrideTable(3, c % 256)), StrideTable(2, (c / 256) % 256)), StrideTable(1, (c / 65536) % 256)),
        StrideTable(0, c / 16777216))
  }

  lemma {:induction false} StrideStep(c: nat, w: nat)
    requires c < WORD && w < WORD
    ensures Xor(Xor(Xor(Xor(w, StrideTable(3, c % 256)), StrideTable(2, (c / 256) % 256)), StrideTable(1, (c / 65536) % 256)),
                StrideTable(0, c / 16777216))
            == Xor(w, Steps(c, 128)) < WORD
  {
    var n := 128;
    var b0, b1, b2, b3 := c % 256, (c / 256) % 256, (c / 65536) % 256, c / 16777216;
    SplitWord(c, b0, b1, b2, b3);
    StrideEntries(b0, b1, b2, b3, n);
    FourTerms(w, b0, b1 * 256, b2 * 65536, b3 * 16777216, n);
    StepsBound(c, n);
    WordIs();
    XorBound(w, Steps(c, n), 32);
  }

  lemma {:induction false} StrideEntries(b0: nat, b1: nat, b2: nat, b3: nat, n: nat)
    requires b0 < 256 && b1 < 256 && b2 < 256 && b3 < 256 && n == 128
    ensures StrideTable(3, b0) == Steps(b0, n) && StrideTable(2, b1) == Steps(b1 * 256, n)
    ensures StrideTable(1, b2) == Steps(b2 * 65536, n) && StrideTable(0, b3) == Steps(b3 * 16777216, n)
  {
  }

  lemma {:induction false} FourTerms(w: nat, b0: nat, b1: nat, b2: nat, b3: nat, n: nat)
    ensures Xor(Xor(Xor(Xor(w, Steps(b0, n)), Steps(b1, n)), Steps(b2, n)), Steps(b3, n))
            == Xor(w, Steps(Xor(Xor(Xor(b0, b1), b2), b3), n))
  {
    StepsLinear(b0, b1, n);
    StepsLinear(Xor(b0, b1), b2, n);
    StepsLinear(Xor(Xor(b0, b1), b2), b3, n);
    var s0, s1, s2, s3 := Steps(b0, n), Steps(b1, n), Steps(b2, n), Steps(b3, n);
    XorAssociates(w, s0, s1);
    XorAssociates(w, Xor(s0, s1), s2);
    XorAssociates(w, Xor(Xor(s0, s1), s2), s3);
  }

  /** The final pass over one stride: STEP4W. */
  function Step4W(l: nat, w: nat): (r: nat)
    requires l < WORD && w < WORD
    ensures r == Steps(Xor(w, l), 32) && r < WORD
  {
    var x := Xor(w, l);
    WordIs();
    XorBound(w, l, 32);
    StepsAdd(x, 8, 8);
    StepsAdd(x, 16, 8);
    StepsAdd(x, 24, 8);
    XorZero(x);
    XorZero(Steps(x, 8));
    XorZero(Steps(x, 16));
    XorZero(Steps(x, 24));
    Step1(Step1(Step1(Step1(x, 0), 0), 0), 0)
  }

  // ---------- four strides ----------

  /** The register that the partial results of four strides amount to. */
  function Combine(c0: nat, c1: nat, c2: nat, c3: nat, n: nat): nat {
    Steps(Xor(c3, Steps(Xor(c2, Steps(Xor(c1, Steps(c0, n)), n)), n)), n)
  }

  lemma {:induction false} LayerLinear(a: nat, x: nat, b: nat, y: nat, n: nat)
    ensures Steps(Xor(Xor(a, b), Xor(x, y)), n) == Xor(Steps(Xor(a, x), n), Steps(Xor(b, y), n))
  {
    XorSwap(a, b, x, y);
    StepsLinear(Xor(a, x), Xor(b, y), n);
  }

  lemma {:induction false} CombineLinear(a0: nat, a1: nat, a2: nat, a3: nat, b0: nat, b1: nat, b2: nat, b3: nat, n: nat)
    ensures Combine(Xor(a0, b0), Xor(a1, b1), Xor(a2, b2), Xor(a3, b3), n)
            == Xor(Combine(a0, a1, a2, a3, n), Combine(b0, b1, b2, b3, n))
  {
    var x0, y0 := Steps(a0, n), Steps(b0, n);
    var x1, y1 := Steps(Xor(a1, x0), n), Steps(Xor(b1, y0), n);
    var x2, y2 := Steps(Xor(a2, x1), n), Steps(Xor(b2, y1), n);
    StepsLinear(a0, b0, n);
    LayerLinear(a1, x0, b1, y0, n);
    LayerLinear(a2, x1, b2, y1, n);
    LayerLinear(a3, x2, b3, y2, n);
  }

  lemma {:induction false} LayerSteps(c: nat, x: nat, n: nat, m: nat)
    ensures Steps(Xor(Steps(c, m), Steps(x, m)), n) == Steps(Steps(Xor(c, x), n), m)
  {
    StepsLinear(c, x, m);
    StepsAdd(Xor(c, x), m, n);
    StepsAdd(Xor(c, x), n, m);
  }

  lemma {:induction false} CombineSteps(c0: nat, c1: nat, c2: nat, c3: nat, n: nat, m: nat)
    ensures Combine(Steps(c0, m), Steps(c1, m), Steps(c2, m), Steps(c3, m), n) == Steps(Combine(c0, c1, c2, c3, n), m)
  {
    var x0 := Steps(c0, n);
    var x1 := Steps(Xor(c1, x0), n);
    var x2 := Steps(Xor(c2, x1), n);
    StepsAdd(c0, m, n);
    StepsAdd(c0, n, m);
    LayerSteps(c1, x0, n, m);
    LayerSteps(c2, x1, n, m);
    LayerSteps(c3, x2, n, m);
  }

  lemma {:induction false} CombineFirst(c: nat, n: nat, m: nat)
    requires m == 4 * n
    ensures Combine(c, 0, 0, 0, n) == Steps(c, m)
  {
    StepsAdd(c, n, n);
    StepsAdd(c, 2 * n, n);
    StepsAdd(c, 3 * n, n);
    XorZero(Steps(c, n));
    XorZero(Steps(c, 2 * n));
    XorZero(Steps(c, 3 * n));
  }

  /** Sixteen bytes at once: what each stride does is what the register does. */
  lemma {:induction false} SwathStep(c0: nat, c1: nat, c2: nat, c3: nat, w0: nat, w1: nat, w2: nat, w3: nat, n: nat, m: nat)
    requires m == 4 * n
    ensures Combine(Xor(w0, Steps(c0, m)), Xor(w1, Steps(c1, m)), Xor(w2, Steps(c2, m)), Xor(w3, Steps(c3, m)), n)
            == Combine(Xor(Combine(c0, c1, c2, c3, n), w0), w1, w2, w3, n)
  {
    var k := Combine(c0, c1, c2, c3, n);
    CombineLinear(w0, w1, w2, w3, Steps(c0, m), Steps(c1, m), Steps(c2, m), Steps(c3, m), n);
    CombineSteps(c0, c1, c2, c3, n, m);
    CombineLinear(w0, w1, w2, w3, k, 0, 0, 0, n);
    CombineFirst(k, n, m);
    XorCommutes(w0, k);
    XorZero(w1);
    XorZero(w2);
    XorZero(w3);
  }

  /** One word at a time: the strides take turns. */
  lemma {:induction false} TurnStep(c0: nat, c1: nat, c2: nat, c3: nat, w: nat, n: nat, m: nat)
    requires m == 4 * n
    ensures Combine(c1, c2, c3, Xor(w, Steps(c0, m)), n) == Steps(Xor(Combine(c0, c1, c2, c3, n), w), n)
  {
    var k, s := Combine(c0, c1, c2, c3, n), Steps(c0, m);
    var rest := Combine(0, c1, c2, c3, n);
    CombineLinear(0, c1, c2, c3, c0, 0, 0, 0, n);
    XorZero(c0);
    XorZero(c1);
    XorZero(c2);
    XorZero(c3);
    CombineFirst(c0, n, m);
    assert k == Xor(rest, s);
    StepsZero(n);
    assert rest == Steps(Xor(c3, Steps(Xor(c2, Steps(c1, n)), n)), n);
    XorAssociates(w, s, rest);
    XorCommutes(s, rest);
    XorCommutes(w, k);
  }

  // ---------- words of the input ----------

  /** ReadUint32LE. */
  function LoadAt(data: Bytes, p: nat): (w: nat)
    requires p + 4 <= |data|
    ensures w == Load(data[p..p + 4]) && w < WORD
  {
    var s := data[p..p + 4];
    var s1 := s[1..];
    var s2 := s1[1..];
    var s3 := s2[1..];
    assert s[0] == data[p] && s1[0] == data[p + 1] && s2[0] == data[p + 2] && s3[0] == data[p + 3] && s3[1..] == [];
    assert Load(s3) == data[p + 3] && Load(s2) == data[p + 2] + 256 * Load(s3) && Load(s1) == data[p + 1] + 256 * Load(s2);
    var b0: nat, b1: nat, b2: nat, b3: nat := data[p], data[p + 1], data[p + 2], data[p + 3];
    b0 + 256 * (b1 + 256 * (b2 + 256 * b3))
  }

  lemma {:induction false} RegisterByte(l: nat, data: Bytes, p: nat, n: nat)
    requires p < |data| && n == 8
    ensures Register(l, data[..p + 1]) == Steps(Xor(Register(l, data[..p]), data[p]), n)
  {
    RegisterConcat(l, data[..p], [data[p]]);
    assert data[..p + 1] == data[..p] + [data[p]];
    assert [data[p]][1..] == [];
    RegisterWord(Register(l, data[..p]), [data[p]], n);
  }

  lemma {:induction false} RegisterFour(l: nat, data: Bytes, p: nat, n: nat)
    requires p + 4 <= |data| && n == 32
    ensures Register(l, data[..p + 4]) == Steps(Xor(Register(l, data[..p]), LoadAt(data, p)), n)
  {
    RegisterConcat(l, data[..p], data[p..p + 4]);
    assert data[..p + 4] == data[..p] + data[p..p + 4];
    RegisterWord(Register(l, data[..p]), data[p..p + 4], n);
  }

  lemma {:induction false} RegisterSixteen(l: nat, data: Bytes, p: nat, n: nat)
    requires p + 16 <= |data| && n == 32
    ensures Register(l, data[..p + 16])
            == Combine(Xor(Register(l, data[..p]), LoadAt(data, p)), LoadAt(data, p + 4), LoadAt(data, p + 8), LoadAt(data, p + 12), n)
  {
    RegisterFour(l, data, p, n);
    RegisterFour(l, data, p + 4, n);
    RegisterFour(l, data, p + 8, n);
    RegisterFour(l, data, p + 12, n);
    XorCommutes(Register(l, data[..p + 4]), LoadAt(data, p + 4));
    XorCommutes(Register(l, data[..p + 8]), LoadAt(data, p + 8));
    XorCommutes(Register(l, data[..p + 12]), LoadAt(data, p + 12));
  }

  // ---------- Extend ----------

  /** Bytes one at a time from `p` to `end`. */
  method Bytewise(l0: nat, l: nat, data: Bytes, p: nat, end: nat) returns (r: nat)
    requires l < WORD && p <= end <= |data| && l == Register(l0, data[..p])
    ensures r < WORD && r == Register(l0, data[..end])
  {
    r := l;
    for q := p to end
      invariant r < WORD && r == Register(l0, data[..q])
    {
      r := Step1(r, data[q]);
      RegisterByte(l0, data, q, 8);
    }
  }

  ghost predicate Strides(l0: nat, data: Bytes, q: nat, c0: nat, c1: nat, c2: nat, c3: nat, n: nat) {
    && q <= |data| && c0 < WORD && c1 < WORD && c2 < WORD && c3 < WORD
    && Combine(c0, c1, c2, c3, n) == Register(l0, data[..q])
  }

  /** One swath of sixteen bytes: STEP16. */
  method Step16(data: Bytes, q: nat, c0: nat, c1: nat, c2: nat, c3: nat, ghost l0: nat, ghost n: nat)
    returns (d0: nat, d1: nat, d2: nat, d3: nat)
    requires q + 16 <= |data| && n == 32 && Strides(l0, data, q, c0, c1, c2, c3, n)
    ensures Strides(l0, data, q + 16, d0, d1, d2, d3, n)
  {
    var w0, w1, w2, w3 := LoadAt(data, q), LoadAt(data, q + 4), LoadAt(data, q + 8), LoadAt(data, q + 12);
    ghost var m := 128;
    SwathStep(c0, c1, c2, c3, w0, w1, w2, w3, n, m);
    RegisterSixteen(l0, data, q, n);
    d0, d1, d2, d3 := Step4(c0, w0), Step4(c1, w1), Step4(c2, w2), Step4(c3, w3);
  }

  /** One word, after which the strides take turns. */
  method StepTurn(data: Bytes, q: nat, c0: nat, c1: nat, c2: nat, c3: nat, ghost l0: nat, ghost n: nat)
    returns (d0: nat, d1: nat, d2: nat, d3: nat)
    requires q + 4 <= |data| && n == 32 && Strides(l0, data, q, c0, c1, c2, c3, n)
    ensures Strides(l0, data, q + 4, d0, d1, d2, d3, n)
  {
    var w := LoadAt(data, q);
    ghost var m := 128;
    TurnStep(c0, c1, c2, c3, w, n, m);
    RegisterFour(l0, data, q, n);
    d0, d1, d2, d3 := c1, c2, c3, Step4(c0, w);
  }

  method LoadStrides(l: nat, data: Bytes, p: nat, ghost l0: nat, ghost n: nat)
    returns (c0: nat, c1: nat, c2: nat, c3: nat)
    requires l < WORD && p + 16 <= |data| && l == Register(l0, data[..p]) && n == 32
    ensures Strides(l0, data, p + 16, c0, c1, c2, c3, n)
  {
    WordIs();
    XorBound(LoadAt(data, p), l, 32);
    XorCommutes(LoadAt(data, p), l);
    c0, c1, c2, c3 := Xor(LoadAt(data, p), l), LoadAt(data, p + 4), LoadAt(data, p + 8), LoadAt(data, p + 12);
    RegisterSixteen(l0, data, p, n);
  }

  /** Four strides from `p` on, as far as whole words go. */
  method Striding(l0: nat, l: nat, data: Bytes, p: nat) returns (r: nat, q: nat)
    requires l < WORD && p + 16 <= |data| && l == Register(l0, data[..p])
    ensures p <= q <= |data| && |data| - q < 4
    ensures r < WORD && r == Register(l0, data[..q])
  {
    ghost var n := 32;
    var crc0, crc1, crc2, crc3 := LoadStrides(l, data, p, l0, n);
    q := p + 16;
    while |data| - q >= 16
      invariant p <= q && Strides(l0, data, q, crc0, crc1, crc2, crc3, n)
    {
      crc0, crc1, crc2, crc3 := Step16(data, q, crc0, crc1, crc2, crc3, l0, n);
      q := q + 16;
    }
    while |data| - q >= 4
      invariant p <= q && Strides(l0, data, q, crc0, crc1, crc2, crc3, n)
    {
      crc0, crc1, crc2, crc3 := StepTurn(data, q, crc0, crc1, crc2, crc3, l0, n);
      q := q + 4;
    }
    r := Finish(crc0, crc1, crc2, crc3, n);
  }

  /** The partial results of the strides, combined. */
  method Finish(c0: nat, c1: nat, c2: nat, c3: nat, ghost n: nat) returns (r: nat)
    requires c0 < WORD && c1 < WORD && c2 < WORD && c3 < WORD && n == 32
    ensures r < WORD && r == Combine(c0, c1, c2, c3, n)
  {
    XorZero(c0);
    r := Step4W(0, c0);
    r := Step4W(r, c1);
    r := Step4W(r, c2);
    r := Step4W(r, c3);
  }

  /** Extend, for input that starts at `address`. */
  method Extend(crc: nat, data: Bytes, address: nat) returns (r: nat)
    requires crc < WORD
    ensures r == Crc(crc, data) && r < WORD
  {
    WordIs();
    XorBound(crc, ONES, 32);
    var l0 := Xor(crc, ONES);
    var l, p := l0, 0;
    var x := (4 - address % 4) % 4;
    if x <= |data| {
      l := Bytewise(l0, l, data, 0, x);
      p := x;
    }
    if |data| - p >= 16 {
      l, p := Striding(l0, l, data, p);
    }
    l := Bytewise(l0, l, data, p, |data|);
    assert data[..|data|] == data;
    XorBound(l, ONES, 32);
    r := Xor(l, ONES);
  }

  lemma {:induction false} RegisterBound(l: nat, data: Bytes)
    requires l < WORD
    ensures Register(l, data) < WORD
    decreases |data|
  {
    if data != [] {
      WordIs();
      XorBound(l, data[0], 32);
      var n := 8;
      StepsBound(Xor(l, data[0]), n);
      RegisterBound(Steps(Xor(l, data[0]), n), data[1..]);
    }
  }

  lemma {:induction false} CrcBound(crc: nat, data: Bytes)
    requires crc < WORD
    ensures Crc(crc, data) < WORD
  {
    WordIs();
    XorBound(crc, ONES, 32);
    RegisterBound(Xor(crc, ONES), data);
    XorBound(Register(Xor(crc, ONES), data), ONES, 32);
  }

  /** Extending by a concatenation is extending twice. */
  lemma {:induction false} ExtendTwice(crc: nat, a: Bytes, b: Bytes)
    ensures Crc(crc, a + b) == Crc(Crc(crc, a), b)
  {
    var l := Register(Xor(crc, ONES), a);
    RegisterConcat(Xor(crc, ONES), a, b);
    XorAssociates(l, ONES, ONES);
    XorSelf(ONES);
    XorZero(l);
  }

  // ---------- masking ----------

  /** Rotate right by 15 bits and add a constant. */
  function Mask(crc: nat): (r: nat)
    requires crc < WORD
    ensures r < WORD
  {
    (crc / 0x8000 + crc % 0x8000 * 0x20000 + MASK_DELTA) % WORD
  }

  function Unmask(masked: nat): (r: nat)
    requires masked < WORD
    ensures r < WORD
  {
    var rot := (masked + WORD - MASK_DELTA) % WORD;
    rot / 0x20000 + rot % 0x20000 * 0x8000
  }

  lemma {:induction false} UnmaskMask(crc: nat)
    requires crc < WORD
    ensures Unmask(Mask(crc)) == crc
  {
    var rot := crc / 0x8000 + crc % 0x8000 * 0x20000;
    assert rot < WORD && rot / 0x20000 == crc % 0x8000 && rot % 0x20000 == crc / 0x8000;
    assert (Mask(crc) + WORD - MASK_DELTA) % WORD == rot;
  }

  lemma {:induction false} MaskUnmask(masked: nat)
    requires masked < WORD
    ensures Mask(Unmask(masked)) == masked
  {
    var rot := (masked + WORD - MASK_DELTA) % WORD;
    var crc := rot / 0x20000 + rot % 0x20000 * 0x8000;
    assert crc / 0x8000 == rot % 0x20000 && crc % 0x8000 == rot / 0x20000;
    assert (rot + MASK_DELTA) % WORD == masked;
  }
}
