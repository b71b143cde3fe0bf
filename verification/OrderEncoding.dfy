/**
 The bytes that are hashed for an order.  The gateway assembles them field by field; the contract
 pads every field to a 32-byte word.  Both come to the same bytes, and the bytes determine the order,
 which is why fills may be keyed by the order instead of by its hash.
 */
module OrderEncoding {
  type byte = x: nat | x < 256

  /**
   An order with its fields at the widths the contract declares: 256-bit numbers, a 20-byte maker and
   an 8-bit side.  The gateway's orders are among these, with 64-bit numbers and side 0 or 1.
   */
  datatype WireOrder = WireOrder(salt: seq<byte>, maker: seq<byte>, positionId: nat, price: nat, amount: nat,
                                 side: byte, nonce: nat, deadline: nat)
  {
    ghost predicate Valid() {
      && |salt| == 32 && |maker| == 20
      && positionId < Pow256(32) && price < Pow256(32) && amount < Pow256(32)
      && nonce < Pow256(32) && deadline < Pow256(32)
    }
  }

  function Pow256(n: nat): nat {
    if n == 0 then 1 else 256 * Pow256(n - 1)
  }

  /** The last `n` bytes of `x`, most significant first. */
  function ToBytes(x: nat, n: nat): (bs: seq<byte>)
    ensures |bs| == n
  {
    if n == 0 then [] else ToBytes(x / 256, n - 1) + [x % 256]
  }

  function FromBytes(bs: seq<byte>): nat {
    if bs == [] then 0 else 256 * FromBytes(bs[..|bs| - 1]) + bs[|bs| - 1]
  }

  function Zeros(n: nat): (bs: seq<byte>)
    ensures |bs| == n
  {
    seq(n, _ => 0)
  }

  /** One 32-byte word per field after the type hash, as `abi.encode` lays them out. */
  function AbiWords(typehash: seq<byte>, o: WireOrder): seq<byte> {
    typehash + o.salt + ToBytes(FromBytes(o.maker), 32) + ToBytes(o.positionId, 32) + ToBytes(o.price, 32)
    + ToBytes(o.amount, 32) + ToBytes(o.side, 32) + ToBytes(o.nonce, 32) + ToBytes(o.deadline, 32)
  }

  /** The gateway's buffer, appended to field by field. */
  method Preimage(typehash: seq<byte>, o: WireOrder) returns (encoded: seq<byte>)
    requires |typehash| == 32 && o.Valid()
    ensures encoded == AbiWords(typehash, o)
  {
    encoded := typehash;
    encoded := encoded + o.salt;
    encoded := encoded + Zeros(12);
    encoded := encoded + o.maker;
    PaddedAddress(o.maker);
    assert encoded == typehash + o.salt + (Zeros(12) + o.maker);
    encoded := encoded + ToBytes(o.positionId, 32);
    encoded := encoded + ToBytes(o.price, 32);
    encoded := encoded + ToBytes(o.amount, 32);
    encoded := encoded + ToBytes(o.side, 32);
    encoded := encoded + ToBytes(o.nonce, 32);
    encoded := encoded + ToBytes(o.deadline, 32);
  }

  // ---- Bytes and numbers ----

  lemma {:induction false} FromToBytes(x: nat, n: nat)
    requires x < Pow256(n)
    ensures FromBytes(ToBytes(x, n)) == x
  {
    if n == 0 {
    } else {
      FromToBytes(x / 256, n - 1);
      assert ToBytes(x, n)[..n - 1] == ToBytes(x / 256, n - 1);
    }
  }

  lemma {:induction false} ToFromBytes(bs: seq<byte>)
    ensures FromBytes(bs) < Pow256(|bs|)
    ensures ToBytes(FromBytes(bs), |bs|) == bs
  {
    if bs == [] {
    } else {
      ToFromBytes(bs[..|bs| - 1]);
      assert bs == bs[..|bs| - 1] + [bs[|bs| - 1]];
    }
  }

  lemma {:induction false} SmallerFits(m: nat, n: nat)
    requires m <= n
    ensures Pow256(m) <= Pow256(n)
  {
    if m < n {
      SmallerFits(m, n - 1);
    }
  }

  /** A number that fits in `k` bytes is zero-padded on the left. */
  lemma {:induction false} PaddedNumber(x: nat, k: nat, n: nat)
    requires k <= n && x < Pow256(k)
    ensures ToBytes(x, n) == Zeros(n - k) + ToBytes(x, k)
  {
    if k > 0 {
      PaddedNumber(x / 256, k - 1, n - 1);
    } else if n > 0 {
      PaddedNumber(0, 0, n - 1);
      assert Zeros(n - 1) + [0] == Zeros(n);
    }
  }

  lemma {:induction false} PaddedAddress(maker: seq<byte>)
    requires |maker| == 20
    ensures ToBytes(FromBytes(maker), 32) == Zeros(12) + maker
  {
    ToFromBytes(maker);
    PaddedNumber(FromBytes(maker), 20, 32);
  }

  // ---- Which word is which field ----

  /** The `k`-th 32-byte word. */
  function Word(bs: seq<byte>, k: nat): seq<byte>
    requires 32 * (k + 1) <= |bs|
  {
    bs[32 * k..32 * (k + 1)]
  }

  lemma {:induction false} WordBefore(a: seq<byte>, x: seq<byte>, k: nat)
    requires 32 * (k + 1) <= |a|
    ensures Word(a + x, k) == Word(a, k)
  {}

  lemma {:induction false} WordLast(a: seq<byte>, x: seq<byte>, k: nat)
    requires |a| == 32 * k && |x| == 32
    ensures Word(a + x, k) == x
  {}

  /** Words up to the `k`-th stay what they are when words are appended. */
  ghost predicate Begins(bs: seq<byte>, words: seq<seq<byte>>) {
    |bs| == 32 * |words| && forall k | 0 <= k < |words| :: Word(bs, k) == words[k]
  }

  lemma {:induction false} BeginsMore(bs: seq<byte>, words: seq<seq<byte>>, x: seq<byte>)
    requires Begins(bs, words) && |x| == 32
    ensures Begins(bs + x, words + [x])
  {
    forall k | 0 <= k < |words| + 1 ensures Word(bs + x, k) == (words + [x])[k] {
      if k < |words| {
        WordBefore(bs, x, k);
      } else {
        WordLast(bs, x, k);
      }
    }
  }

  /**
   The hashed bytes are nine words: the type hash, the salt, the maker behind twelve zero bytes, and then the
   position, the price, the amount, the side, the nonce and the deadline as numbers, in that order.
   */
  lemma {:induction false} FieldPositions(t: seq<byte>, o: WireOrder)
    requires |t| == 32 && o.Valid()
    ensures
      var bs := AbiWords(t, o);
      && |bs| == 288
      && bs[..32] == t && bs[32..64] == o.salt && bs[64..96] == Zeros(12) + o.maker
      && FromBytes(bs[96..128]) == o.positionId && FromBytes(bs[128..160]) == o.price
      && FromBytes(bs[160..192]) == o.amount && FromBytes(bs[192..224]) == o.side
      && FromBytes(bs[224..256]) == o.nonce && FromBytes(bs[256..]) == o.deadline
  {
    var w2, w3, w4 := ToBytes(FromBytes(o.maker), 32), ToBytes(o.positionId, 32), ToBytes(o.price, 32);
    var w5, w6, w7, w8 := ToBytes(o.amount, 32), ToBytes(o.side, 32), ToBytes(o.nonce, 32), ToBytes(o.deadline, 32);
    assert Begins(t, [t]);
    BeginsMore(t, [t], o.salt);
    BeginsMore(t + o.salt, [t] + [o.salt], w2);
    BeginsMore(t + o.salt + w2, [t] + [o.salt] + [w2], w3);
    BeginsMore(t + o.salt + w2 + w3, [t] + [o.salt] + [w2] + [w3], w4);
    var words := [t] + [o.salt] + [w2] + [w3] + [w4];
    var bs := t + o.salt + w2 + w3 + w4;
    BeginsMore(bs, words, w5);
    BeginsMore(bs + w5, words + [w5], w6);
    BeginsMore(bs + w5 + w6, words + [w5] + [w6], w7);
    BeginsMore(bs + w5 + w6 + w7, words + [w5] + [w6] + [w7], w8);
    WordsAre(AbiWords(t, o), words + [w5] + [w6] + [w7] + [w8]);
    PaddedAddress(o.maker);
    SmallerFits(1, 32);
    FromToBytes(o.positionId, 32);
    FromToBytes(o.price, 32);
    FromToBytes(o.amount, 32);
    FromToBytes(o.side, 32);
    FromToBytes(o.nonce, 32);
    FromToBytes(o.deadline, 32);
  }

  lemma {:induction false} WordsAre(bs: seq<byte>, words: seq<seq<byte>>)
    requires Begins(bs, words) && |words| == 9
    ensures bs[..32] == words[0] && bs[32..64] == words[1] && bs[64..96] == words[2] && bs[96..128] == words[3]
    ensures bs[128..160] == words[4] && bs[160..192] == words[5] && bs[192..224] == words[6]
    ensures bs[224..256] == words[7] && bs[256..] == words[8]
  {
    assert Word(bs, 0) == words[0] && Word(bs, 1) == words[1] && Word(bs, 2) == words[2] && Word(bs, 3) == words[3];
    assert Word(bs, 4) == words[4] && Word(bs, 5) == words[5] && Word(bs, 6) == words[6] && Word(bs, 7) == words[7];
    assert Word(bs, 8) == words[8];
  }

  // ---- The bytes determine the order ----

  lemma {:induction false} SplitLast(a: seq<byte>, x: seq<byte>, b: seq<byte>, y: seq<byte>)
    requires a + x == b + y && |x| == |y|
    ensures a == b && x == y
  {
    assert a == (a + x)[..|a|] && x == (a + x)[|a|..];
    assert b == (b + y)[..|b|] && y == (b + y)[|b|..];
  }

  lemma {:induction false} SameNumber(x: nat, y: nat, n: nat)
    requires x < Pow256(n) && y < Pow256(n) && ToBytes(x, n) == ToBytes(y, n)
    ensures x == y
  {
    FromToBytes(x, n);
    FromToBytes(y, n);
  }

  lemma {:induction false} SameWords(t: seq<byte>, a: WireOrder, b: WireOrder)
    requires |t| == 32 && |a.salt| == |b.salt| && AbiWords(t, a) == AbiWords(t, b)
    ensures a.salt == b.salt && ToBytes(FromBytes(a.maker), 32) == ToBytes(FromBytes(b.maker), 32)
    ensures ToBytes(a.positionId, 32) == ToBytes(b.positionId, 32) && ToBytes(a.price, 32) == ToBytes(b.price, 32)
    ensures ToBytes(a.amount, 32) == ToBytes(b.amount, 32)
    ensures ToBytes(a.side, 32) == ToBytes(b.side, 32)
    ensures ToBytes(a.nonce, 32) == ToBytes(b.nonce, 32) && ToBytes(a.deadline, 32) == ToBytes(b.deadline, 32)
  {
    var a1, b1 := t + a.salt, t + b.salt;
    var a2, b2 := a1 + ToBytes(FromBytes(a.maker), 32), b1 + ToBytes(FromBytes(b.maker), 32);
    var a3, b3 := a2 + ToBytes(a.positionId, 32), b2 + ToBytes(b.positionId, 32);
    var a4, b4 := a3 + ToBytes(a.price, 32), b3 + ToBytes(b.price, 32);
    var a5, b5 := a4 + ToBytes(a.amount, 32), b4 + ToBytes(b.amount, 32);
    var a6, b6 := a5 + ToBytes(a.side, 32), b5 + ToBytes(b.side, 32);
    var a7, b7 := a6 + ToBytes(a.nonce, 32), b6 + ToBytes(b.nonce, 32);
    SplitLast(a7, ToBytes(a.deadline, 32), b7, ToBytes(b.deadline, 32));
    SplitLast(a6, ToBytes(a.nonce, 32), b6, ToBytes(b.nonce, 32));
    SplitLast(a5, ToBytes(a.side, 32), b5, ToBytes(b.side, 32));
    SplitLast(a4, ToBytes(a.amount, 32), b4, ToBytes(b.amount, 32));
    SplitLast(a3, ToBytes(a.price, 32), b3, ToBytes(b.price, 32));
    SplitLast(a2, ToBytes(a.positionId, 32), b2, ToBytes(b.positionId, 32));
    SplitLast(a1, ToBytes(FromBytes(a.maker), 32), b1, ToBytes(FromBytes(b.maker), 32));
    SplitLast(t, a.salt, t, b.salt);
  }

  /** Two orders with the same preimage are the same order. */
  lemma {:induction false} PreimageDeterminesOrder(t: seq<byte>, a: WireOrder, b: WireOrder)
    requires a.Valid() && b.Valid() && |t| == 32 && AbiWords(t, a) == AbiWords(t, b)
    ensures a == b
  {
    SameWords(t, a, b);
    SmallerFits(1, 32);
    SmallerFits(20, 32);
    SameNumber(a.deadline, b.deadline, 32);
    SameNumber(a.nonce, b.nonce, 32);
    SameNumber(a.side, b.side, 32);
    SameNumber(a.amount, b.amount, 32);
    SameNumber(a.price, b.price, 32);
    SameNumber(a.positionId, b.positionId, 32);
    ToFromBytes(a.maker);
    ToFromBytes(b.maker);
    SameNumber(FromBytes(a.maker), FromBytes(b.maker), 32);
  }
}
