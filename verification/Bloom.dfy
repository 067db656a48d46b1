/** The Bloom filter (util/bloom.cc). The hash function is a parameter. */
module Bloom {
  import opened Dbformat
  import Coding

  // ---------- bits ----------

  function Pow2(i: nat): nat {
    if i == 0 then 1 else 2 * Pow2(i - 1)
  }

  predicate TestBit(b: nat, i: nat) {
    if i == 0 then b % 2 == 1 else TestBit(b / 2, i - 1)
  }

  /** The byte with bit `i` set: an or with a single bit. */
  function SetBit(b: Byte, i: nat): (r: Byte)
    requires i < 8
    ensures TestBit(r, i) && forall j: nat | j != i :: TestBit(r, j) <==> TestBit(b, j)
  {
    if TestBit(b, i) then b
    else
      assert Pow2(4) == 16;
      BitFits(b, i, 8);
      forall j: nat ensures TestBit(b + Pow2(i), j) <==> j == i || TestBit(b, j) {
        BitAdded(b, i, j);
      }
      b + Pow2(i)
  }

  lemma {:induction false} BitAdded(b: nat, i: nat, j: nat)
    requires !TestBit(b, i)
    ensures TestBit(b + Pow2(i), j) <==> j == i || TestBit(b, j)
  {
    if i == 0 {
      assert (b + 1) / 2 == b / 2;
    } else {
      assert (b + Pow2(i)) / 2 == b / 2 + Pow2(i - 1);
      if j > 0 {
        BitAdded(b / 2, i - 1, j - 1);
      }
    }
  }

  lemma {:induction false} BitFits(b: nat, i: nat, n: nat)
    requires b < Pow2(n) && i < n && !TestBit(b, i)
    ensures b + Pow2(i) < Pow2(n)
  {
    if i > 0 {
      BitFits(b / 2, i - 1, n - 1);
    }
  }

  predicate HasBit(table: Bytes, p: nat) {
    p / 8 < |table| && TestBit(table[p / 8], p % 8)
  }

  // ---------- probes ----------

  /** The hash rotated right by 17 bits. */
  function Delta(h: nat): nat {
    h / 0x2_0000 + h % 0x2_0000 * 0x8000
  }

  /** The `j`-th value of the double-hashing sequence, in 32-bit arithmetic. */
  function Probe(h: nat, j: nat): nat {
    if j == 0 then h else (Probe(h, j - 1) + Delta(h)) % Coding.TWO32
  }

  predicate Probed(table: Bytes, bits: nat, h: nat, k: nat)
    requires bits > 0
  {
    forall j | 0 <= j < k :: HasBit(table, Probe(h, j) % bits)
  }

  /** What a filter answers for a key. */
  predicate Accepts(hash: Bytes -> nat, filter: Bytes, key: Bytes) {
    |filter| >= 2 &&
    (filter[|filter| - 1] > 30 || Probed(filter[..|filter| - 1], (|filter| - 1) * 8, hash(key), filter[|filter| - 1]))
  }

  /** `grown` has at least the bits of `table`. */
  predicate Covers(grown: Bytes, table: Bytes) {
    |grown| == |table| && forall i, j | 0 <= i < |table| && 0 <= j < 8 && TestBit(table[i], j) :: TestBit(grown[i], j)
  }

  lemma {:induction false} CoversProbed(grown: Bytes, table: Bytes, bits: nat, h: nat, k: nat)
    requires Covers(grown, table) && bits > 0 && Probed(table, bits, h, k)
    ensures Probed(grown, bits, h, k)
  {
    forall j | 0 <= j < k ensures HasBit(grown, Probe(h, j) % bits) {
      assert HasBit(table, Probe(h, j) % bits);
    }
  }

  /** Some probe of the key hits the bit. */
  predicate Hits(h: nat, k: nat, bits: nat, p: nat)
    requires bits > 0
  {
    exists j :: 0 <= j < k && Probe(h, j) % bits == p
  }

  /** Some probe of one of the keys hits the bit. */
  predicate Marked(hash: Bytes -> nat, keys: seq<Bytes>, k: nat, bits: nat, p: nat)
    requires bits > 0
  {
    exists i :: 0 <= i < |keys| && Hits(hash(keys[i]), k, bits, p)
  }

  /** The first `k` probes of one key added their bits, and nothing else. */
  predicate Added(table: Bytes, r: Bytes, h: nat, k: nat, bits: nat)
    requires bits > 0
  {
    forall p | 0 <= p < bits :: HasBit(r, p) <==> HasBit(table, p) || Hits(h, k, bits, p)
  }

  /** The bits that are set are those the probes of the keys hit. */
  predicate Exact(hash: Bytes -> nat, keys: seq<Bytes>, k: nat, table: Bytes) {
    |table| > 0 && forall p | 0 <= p < 8 * |table| :: HasBit(table, p) <==> Marked(hash, keys, k, 8 * |table|, p)
  }

  lemma {:induction false} MarkedMore(hash: Bytes -> nat, keys: seq<Bytes>, key: Bytes, k: nat, bits: nat, p: nat)
    requires bits > 0
    ensures Marked(hash, keys + [key], k, bits, p) <==> Marked(hash, keys, k, bits, p) || Hits(hash(key), k, bits, p)
  {
    var all := keys + [key];
    if Marked(hash, keys, k, bits, p) {
      var i :| 0 <= i < |keys| && Hits(hash(keys[i]), k, bits, p);
      assert all[i] == keys[i];
    }
    assert all[|keys|] == key;
  }

  /** How many bits a filter over `n` keys has: at least 64, and whole bytes. */
  function FilterBits(n: nat, bitsPerKey: nat): (r: nat)
    ensures r >= 64 && r % 8 == 0 && n * bitsPerKey <= r && (r > 64 ==> r < n * bitsPerKey + 8)
  {
    var bits := n * bitsPerKey;
    if bits < 64 then 64 else (bits + 7) / 8 * 8
  }

  /** Each probe of the key hits a bit that a probe of one of the keys hits. */
  predicate AllMarked(hash: Bytes -> nat, keys: seq<Bytes>, k: nat, bits: nat, key: Bytes)
    requires bits > 0
  {
    forall j | 0 <= j < k :: Marked(hash, keys, k, bits, Probe(hash(key), j) % bits)
  }

  lemma {:induction false} OwnMarked(hash: Bytes -> nat, keys: seq<Bytes>, k: nat, bits: nat, key: Bytes)
    requires bits > 0 && key in keys
    ensures AllMarked(hash, keys, k, bits, key)
  {
    var i :| 0 <= i < |keys| && keys[i] == key;
    forall j | 0 <= j < k ensures Marked(hash, keys, k, bits, Probe(hash(key), j) % bits) {
      assert Hits(hash(keys[i]), k, bits, Probe(hash(key), j) % bits);
    }
  }

  /** The filter over such a table: of any key it accepts exactly those of which each probe hits a bit that a
      probe of some key in the set hits too. */
  lemma {:induction false} ExactAccepts(hash: Bytes -> nat, keys: seq<Bytes>, k: nat, table: Bytes, key: Bytes)
    requires Exact(hash, keys, k, table) && k <= 30
    ensures Accepts(hash, table + [k], key)
            <==> AllMarked(hash, keys, k, 8 * |table|, key)
  {
    var bits, f, h := 8 * |table|, table + [k], hash(key);
    assert f[..|f| - 1] == table && f[|f| - 1] == k;
    ProbedIs(hash, keys, k, table, bits, h);
    assert Accepts(hash, f, key) <==> Probed(table, bits, h, k);
  }

  lemma {:induction false} ProbedIs(hash: Bytes -> nat, keys: seq<Bytes>, k: nat, table: Bytes, bits: nat, h: nat)
    requires Exact(hash, keys, k, table) && bits == 8 * |table|
    ensures Probed(table, bits, h, k) <==> forall j | 0 <= j < k :: Marked(hash, keys, k, bits, Probe(h, j) % bits)
  {
    if Probed(table, bits, h, k) {
      forall j | 0 <= j < k ensures Marked(hash, keys, k, bits, Probe(h, j) % bits) {
        assert HasBit(table, Probe(h, j) % bits);
      }
    } else {
      var j :| 0 <= j < k && !HasBit(table, Probe(h, j) % bits);
      assert !Marked(hash, keys, k, bits, Probe(h, j) % bits);
    }
  }

  class BloomFilterPolicy {
    const bitsPerKey: nat
    const hash: Bytes -> nat
    const k: nat

    predicate Valid() {
      1 <= k <= 30
    }

    constructor (bitsPerKey: nat, hash: Bytes -> nat)
      ensures Valid() && this.hash == hash
    {
      this.bitsPerKey, this.hash := bitsPerKey, hash;
      var probes := bitsPerKey * 69 / 100;
      k := if probes < 1 then 1 else if probes > 30 then 30 else probes;
    }

    method AddToArray(table: Bytes, bits: nat, h: nat) returns (r: Bytes)
      requires bits == 8 * |table| && bits > 0
      ensures Covers(r, table) && Probed(r, bits, h, k)
      ensures Added(table, r, h, k, bits)
    {
      r := table;
      var g := h;
      for j := 0 to k
        invariant g == Probe(h, j) && Covers(r, table) && Probed(r, bits, h, j)
        invariant Added(table, r, h, j, bits)
      {
        var bitpos := g % bits;
        assert bitpos / 8 < |r|;
        ghost var before := r;
        r := r[bitpos / 8 := SetBit(r[bitpos / 8], bitpos % 8)];
        CoversProbed(r, before, bits, h, j);
        AddedMore(table, before, r, h, j, bits);
        g := (g + Delta(h)) % Coding.TWO32;
      }
    }

    /** CreateFilter appends a filter that accepts every key it was made from, and of others those alone
        whose probes all hit bits that the keys share. */
    method CreateFilter(keys: seq<Bytes>, dst: Bytes) returns (r: Bytes)
      requires Valid()
      ensures dst <= r && |r| >= |dst| + 2 && forall i | 0 <= i < |keys| :: Accepts(hash, r[|dst|..], keys[i])
      ensures var table := r[|dst|..|r| - 1];
              && r[|r| - 1] == k && Exact(hash, keys, k, table)
              && 8 * |table| == FilterBits(|keys|, bitsPerKey)
    {
      var bits := |keys| * bitsPerKey;
      if bits < 64 {
        bits := 64;
      }
      var bytes := (bits + 7) / 8;
      bits := bytes * 8;
      var table: Bytes := seq(bytes, _ => 0);
      NoBits(hash, keys[..0], k, table);
      for i := 0 to |keys|
        invariant |table| == bytes && forall n | 0 <= n < i :: Probed(table, bits, hash(keys[n]), k)
        invariant Exact(hash, keys[..i], k, table)
      {
        ghost var before := table;
        table := AddToArray(table, bits, hash(keys[i]));
        forall n | 0 <= n < i ensures Probed(table, bits, hash(keys[n]), k) {
          CoversProbed(table, before, bits, hash(keys[n]), k);
        }
        assert keys[..i + 1] == keys[..i] + [keys[i]];
        forall p | 0 <= p < bits ensures HasBit(table, p) <==> Marked(hash, keys[..i + 1], k, bits, p) {
          MarkedMore(hash, keys[..i], keys[i], k, bits, p);
        }
      }
      assert keys[..|keys|] == keys;
      r := dst + table + [k];
      assert r[|dst|..] == table + [k] && (table + [k])[..bytes] == table;
    }

    /** KeyMayMatch. */
    method KeyMayMatch(key: Bytes, filter: Bytes) returns (r: bool)
      ensures r <==> Accepts(hash, filter, key)
    {
      var len := |filter|;
      if len < 2 {
        return false;
      }
      var bits := (len - 1) * 8;
      var probes: nat := filter[len - 1];
      if probes > 30 {
        return true;
      }
      var h := hash(key);
      var g := h;
      for j := 0 to probes
        invariant g == Probe(h, j) && Probed(filter[..len - 1], bits, h, j)
      {
        var bitpos := g % bits;
        assert bitpos / 8 < len - 1;
        if !TestBit(filter[bitpos / 8], bitpos % 8) {
          assert !HasBit(filter[..len - 1], Probe(h, j) % bits);
          return false;
        }
        g := (g + Delta(h)) % Coding.TWO32;
      }
      return true;
    }
  }

  /** Setting one bit sets no other. */
  lemma {:induction false} OneBit(before: Bytes, after: Bytes, p: nat)
    requires p / 8 < |before| && after == before[p / 8 := SetBit(before[p / 8], p % 8)]
    ensures forall q: nat :: HasBit(after, q) <==> q == p || HasBit(before, q)
  {
    forall q: nat ensures HasBit(after, q) <==> q == p || HasBit(before, q) {
      if q / 8 == p / 8 {
        assert q == p <==> q % 8 == p % 8;
      }
    }
  }

  lemma {:induction false} AddedMore(table: Bytes, before: Bytes, after: Bytes, h: nat, j: nat, bits: nat)
    requires bits > 0 && Added(table, before, h, j, bits) && bits == 8 * |before|
    requires var p := Probe(h, j) % bits; after == before[p / 8 := SetBit(before[p / 8], p % 8)]
    ensures Added(table, after, h, j + 1, bits)
  {
    OneBit(before, after, Probe(h, j) % bits);
    forall p | 0 <= p < bits ensures HasBit(after, p) <==> HasBit(table, p) || Hits(h, j + 1, bits, p) {
      HitsMore(h, j, bits, p);
    }
  }

  lemma {:induction false} HitsMore(h: nat, j: nat, bits: nat, p: nat)
    requires bits > 0
    ensures Hits(h, j + 1, bits, p) <==> Hits(h, j, bits, p) || Probe(h, j) % bits == p
  {
  }

  lemma {:induction false} NoBits(hash: Bytes -> nat, keys: seq<Bytes>, k: nat, table: Bytes)
    requires keys == [] && |table| > 0 && forall i | 0 <= i < |table| :: table[i] == 0
    ensures Exact(hash, keys, k, table)
  {
    forall p | 0 <= p < 8 * |table| ensures !HasBit(table, p) {
      var zero: nat := 0;
      NoBit(zero, p % 8);
    }
  }

  lemma {:induction false} NoBit(b: nat, i: nat)
    requires b == 0
    ensures !TestBit(b, i)
  {
    if i > 0 {
      NoBit(b / 2, i - 1);
    }
  }
}
