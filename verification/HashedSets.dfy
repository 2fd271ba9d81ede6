/** The set of user ids of one inbound, with a hash that is kept up to date as ids come and go. */
module HashedSets {
  import opened Bytes

  type Id = seq<byte>

  // ---------------------------------------------------------------- the string hash

  function Pow(m: nat, n: nat): nat {
    if n == 0 then 1 else m * Pow(m, n - 1)
  }

  /** The value of the digits `s` in base `m`, each scaled by `k`, first digit highest. */
  function Digits(m: nat, k: nat, s: Id): nat {
    if s == [] then 0 else s[0] * k * Pow(m, |s| - 1) + Digits(m, k, s[1..])
  }

  /** The closed form of the hash: a polynomial in 33 for one half and in 65 for the other. */
  function High(s: Id): uint32 {
    Uint32(5381 * Pow(33, |s|) + Digits(33, 1, s))
  }

  function Low(s: Id): uint32 {
    Uint32(5387 * Pow(65, |s|) + Digits(65, 37, s))
  }

  lemma {:induction false} DigitsNext(m: nat, k: nat, s: Id, c: byte)
    ensures Digits(m, k, s + [c]) == m * Digits(m, k, s) + c * k
  {
    if s == [] {
      assert Digits(m, k, [c]) == c * k * Pow(m, 0) + Digits(m, k, []);
    } else {
      DigitsNext(m, k, s[1..], c);
      assert (s + [c])[1..] == s[1..] + [c];
      var p, d := Pow(m, |s| - 1), s[0] * k;
      assert Pow(m, |s|) == m * p;
      Distribute(m, d, p, Digits(m, k, s[1..]));
    }
  }

  lemma Distribute(m: nat, d: nat, p: nat, rest: nat)
    ensures d * (m * p) + m * rest == m * (d * p + rest)
  {
    assert d * (m * p) == m * (d * p);
  }

  /** One round of a shift-and-add hash, each operation cut to 32 bits. */
  lemma RoundIsLinear(x: nat, m: nat, c: nat)
    requires m == 33 || m == 65
    ensures Uint32(Uint32(Uint32(x) * (m - 1)) + Uint32(x) + c) == Uint32(m * x + c)
  {
    var q := x / 0x1_0000_0000;
    assert x == q * 0x1_0000_0000 + Uint32(x);
    if m == 33 {
      var r := Uint32(x) * 32;
      assert r == (r / 0x1_0000_0000) * 0x1_0000_0000 + Uint32(r);
      assert 33 * x + c == (33 * q + r / 0x1_0000_0000) * 0x1_0000_0000 + (Uint32(r) + Uint32(x) + c);
      SameLowBits(Uint32(r) + Uint32(x) + c, 33 * q + r / 0x1_0000_0000);
    } else {
      var r := Uint32(x) * 64;
      assert r == (r / 0x1_0000_0000) * 0x1_0000_0000 + Uint32(r);
      assert 65 * x + c == (65 * q + r / 0x1_0000_0000) * 0x1_0000_0000 + (Uint32(r) + Uint32(x) + c);
      SameLowBits(Uint32(r) + Uint32(x) + c, 65 * q + r / 0x1_0000_0000);
    }
  }

  lemma SameLowBits(a: nat, q: nat)
    ensures Uint32(q * 0x1_0000_0000 + a) == Uint32(a)
  {
  }

  /** The loop, which shifts and adds in 32-bit words, computes the closed form. */
  method Djb2Dual(value: Id) returns (high: uint32, low: uint32)
    ensures high == High(value) && low == Low(value)
  {
    high := 5381;
    low := 5387;
    for i := 0 to |value|
      invariant high == High(value[..i]) && low == Low(value[..i])
    {
      var c: byte := value[i];
      assert value[..i + 1] == value[..i] + [c];
      HashNext(value[..i], c);
      high := Uint32(Uint32(high * 32) + high + c);
      low := Uint32(Uint32(low * 64) + low + c * 37);
    }
    assert value[..|value|] == value;
  }

  lemma HashNext(s: Id, c: byte)
    ensures High(s + [c]) == Uint32(Uint32(High(s) * 32) + High(s) + c)
    ensures Low(s + [c]) == Uint32(Uint32(Low(s) * 64) + Low(s) + c * 37)
  {
    DigitsNext(33, 1, s, c);
    DigitsNext(65, 37, s, c);
    RoundIsLinear(5381 * Pow(33, |s|) + Digits(33, 1, s), 33, c);
    RoundIsLinear(5387 * Pow(65, |s|) + Digits(65, 37, s), 65, c * 37);
    assert Pow(33, |s| + 1) == 33 * Pow(33, |s|) && Pow(65, |s| + 1) == 65 * Pow(65, |s|);
  }

  // ---------------------------------------------------------------- the hash of a set

  datatype Digest = Digest(high: bv32, low: bv32)

  const ZERO := Digest(0, 0)

  function XorWord(x: bv32, y: bv32): bv32 {
    x ^ y
  }

  function Xor(a: Digest, b: Digest): Digest {
    Digest(XorWord(a.high, b.high), XorWord(a.low, b.low))
  }

  function Word(n: uint32): bv32 {
    n as bv32
  }

  function DigestOf(s: Id): Digest {
    Digest(Word(High(s)), Word(Low(s)))
  }

  lemma WordCommutes(x: bv32, y: bv32)
    ensures XorWord(x, y) == XorWord(y, x)
  {
  }

  lemma WordAssociates(x: bv32, y: bv32, z: bv32)
    ensures XorWord(XorWord(x, y), z) == XorWord(x, XorWord(y, z))
  {
  }

  lemma WordCancels(x: bv32)
    ensures XorWord(x, 0) == x && XorWord(x, x) == 0
  {
  }

  lemma XorCommutes(a: Digest, b: Digest)
    ensures Xor(a, b) == Xor(b, a)
  {
    hide XorWord;
    WordCommutes(a.high, b.high);
    WordCommutes(a.low, b.low);
  }

  lemma XorAssociates(a: Digest, b: Digest, c: Digest)
    ensures Xor(Xor(a, b), c) == Xor(a, Xor(b, c))
  {
    hide XorWord;
    WordAssociates(a.high, b.high, c.high);
    WordAssociates(a.low, b.low, c.low);
  }

  lemma XorCancels(a: Digest)
    ensures Xor(a, ZERO) == a && Xor(ZERO, a) == a && Xor(a, a) == ZERO
  {
    hide XorWord;
    WordCancels(a.high);
    WordCancels(a.low);
    XorCommutes(a, ZERO);
  }

  lemma XorLaws(a: Digest, b: Digest, c: Digest)
    ensures Xor(a, b) == Xor(b, a)
    ensures Xor(Xor(a, b), c) == Xor(a, Xor(b, c))
    ensures Xor(a, ZERO) == a && Xor(a, a) == ZERO
    ensures Xor(a, Xor(a, b)) == b
    ensures Xor(a, Xor(b, c)) == Xor(b, Xor(a, c))
  {
    hide Xor;
    XorCommutes(a, b);
    XorAssociates(a, b, c);
    XorAssociates(b, a, c);
    XorCancels(a);
    XorCancels(b);
    XorAssociates(a, a, b);
  }

  lemma XorZero(a: Digest, b: Digest)
    ensures Xor(a, b) == ZERO <==> a == b
  {
  }

  /** The XOR of the digests of a set's members, taken in any order. */
  ghost function XorAll(s: set<Id>): Digest
    decreases |s|
  {
    if s == {} then ZERO else
    var x :| x in s;
    Xor(DigestOf(x), XorAll(s - {x}))
  }

  lemma {:induction false} XorAllInsert(s: set<Id>, x: Id)
    requires x !in s
    ensures XorAll(s + {x}) == Xor(DigestOf(x), XorAll(s))
    decreases |s|
  {
    hide DigestOf;
    var t := s + {x};
    var y :| y in t && XorAll(t) == Xor(DigestOf(y), XorAll(t - {y}));
    if y == x {
      assert t - {y} == s;
    } else {
      var r := s - {y};
      assert t - {y} == r + {x} && s == r + {y};
      XorAllInsert(r, x);
      XorAllInsert(r, y);
      XorLaws(DigestOf(y), DigestOf(x), XorAll(r));
    }
  }

  lemma XorAllDelete(s: set<Id>, x: Id)
    requires x in s
    ensures XorAll(s - {x}) == Xor(DigestOf(x), XorAll(s))
  {
    hide DigestOf;
    XorAllInsert(s - {x}, x);
    assert s - {x} + {x} == s;
    XorLaws(DigestOf(x), XorAll(s - {x}), ZERO);
  }

  lemma {:induction false} XorAllUnion(a: set<Id>, b: set<Id>)
    requires a !! b
    ensures XorAll(a + b) == Xor(XorAll(a), XorAll(b))
    decreases |b|
  {
    hide DigestOf, XorAll;
    if b == {} {
      assert a + b == a;
      assert XorAll({}) == ZERO by { XorAllEmpty(); }
      XorLaws(XorAll(a), ZERO, ZERO);
    } else {
      var x :| x in b;
      var c := b - {x};
      XorAllUnion(a, c);
      XorAllInsert(c, x);
      XorAllInsert(a + c, x);
      assert b == c + {x} && a + b == a + c + {x};
      XorLaws(XorAll(a), DigestOf(x), XorAll(c));
    }
  }

  lemma XorAllEmpty()
    ensures XorAll({}) == ZERO
  {
  }

  /** Two sets have the same hash exactly when the digests of the ids in one but not the other
      cancel out. */
  lemma SameHashIff(a: set<Id>, b: set<Id>)
    ensures XorAll(a) == XorAll(b) <==> XorAll((a - b) + (b - a)) == ZERO
  {
    var c, d, e := a * b, a - b, b - a;
    assert a == c + d && b == c + e;
    XorAllUnion(c, d);
    XorAllUnion(c, e);
    XorAllUnion(d, e);
    XorZero(XorAll(d), XorAll(e));
    XorLaws(XorAll(c), XorAll(d), ZERO);
    XorLaws(XorAll(c), XorAll(e), ZERO);
  }

  datatype Change = Added(id: Id) | Deleted(id: Id)

  function Members(run: seq<Change>): set<Id> {
    if run == [] then {} else
    var before := Members(run[..|run| - 1]);
    match run[|run| - 1]
    case Added(id) => before + {id}
    case Deleted(id) => before - {id}
  }

  /** The pair as it is kept: one XOR for each change that changes the set. */
  function RunningHash(run: seq<Change>): Digest {
    if run == [] then ZERO else
    var before, hash := Members(run[..|run| - 1]), RunningHash(run[..|run| - 1]);
    match run[|run| - 1]
    case Added(id) => if id in before then hash else Xor(hash, DigestOf(id))
    case Deleted(id) => if id in before then Xor(hash, DigestOf(id)) else hash
  }

  /** After any run the pair depends only on who is left, not on order or repeats. */
  lemma {:induction false} RunningHashIsXorAll(run: seq<Change>)
    ensures RunningHash(run) == XorAll(Members(run))
  {
    hide DigestOf, XorAll, Xor;
    if run == [] {
      XorAllEmpty();
    } else {
      var before, id := Members(run[..|run| - 1]), run[|run| - 1].id;
      RunningHashIsXorAll(run[..|run| - 1]);
      XorCommutes(DigestOf(id), XorAll(before));
      if id in before {
        XorAllDelete(before, id);
        assert before + {id} == before;
      } else {
        XorAllInsert(before, id);
        assert before - {id} == before;
      }
    }
  }

  // ---------------------------------------------------------------- rendering

  function HexDigit(x: bv32): char {
    if x == 0 then '0' else if x == 1 then '1' else if x == 2 then '2' else if x == 3 then '3'
    else if x == 4 then '4' else if x == 5 then '5' else if x == 6 then '6' else if x == 7 then '7'
    else if x == 8 then '8' else if x == 9 then '9' else if x == 10 then 'a' else if x == 11 then 'b'
    else if x == 12 then 'c' else if x == 13 then 'd' else if x == 14 then 'e' else 'f'
  }

  /** Four bits of a word, from bit `k` on. */
  function Nibble(x: bv32, k: nat): bv32
    requires k <= 28
  {
    (x >> k) & 15
  }

  /** `%08x` of a 32-bit word. */
  function Hex8(x: bv32): (s: string)
    ensures |s| == 8
  {
    [HexDigit(Nibble(x, 28)), HexDigit(Nibble(x, 24)), HexDigit(Nibble(x, 20)), HexDigit(Nibble(x, 16)),
     HexDigit(Nibble(x, 12)), HexDigit(Nibble(x, 8)), HexDigit(Nibble(x, 4)), HexDigit(Nibble(x, 0))]
  }

  function Render(d: Digest): string {
    Hex8(d.high) + Hex8(d.low)
  }

  lemma HexDigitInjective(x: bv32, y: bv32)
    requires x < 16 && y < 16 && HexDigit(x) == HexDigit(y)
    ensures x == y
  {
  }

  lemma NibbleSmall(x: bv32, k: nat)
    requires k <= 28
    ensures Nibble(x, k) < 16
  {
  }

  lemma NibbleFrom(x: bv32, y: bv32, k: nat)
    requires k <= 28 && HexDigit(Nibble(x, k)) == HexDigit(Nibble(y, k))
    ensures Nibble(x, k) == Nibble(y, k)
  {
    hide Nibble;
    NibbleSmall(x, k);
    NibbleSmall(y, k);
    HexDigitInjective(Nibble(x, k), Nibble(y, k));
  }

  lemma Nibbles(x: bv32, y: bv32)
    requires Nibble(x, 28) == Nibble(y, 28) && Nibble(x, 24) == Nibble(y, 24)
    requires Nibble(x, 20) == Nibble(y, 20) && Nibble(x, 16) == Nibble(y, 16)
    requires Nibble(x, 12) == Nibble(y, 12) && Nibble(x, 8) == Nibble(y, 8)
    requires Nibble(x, 4) == Nibble(y, 4) && Nibble(x, 0) == Nibble(y, 0)
    ensures x == y
  {
  }

  lemma Hex8Injective(x: bv32, y: bv32)
    requires Hex8(x) == Hex8(y)
    ensures x == y
  {
    hide HexDigit, Nibble;
    var a, b := Hex8(x), Hex8(y);
    assert a[0] == b[0] && a[1] == b[1] && a[2] == b[2] && a[3] == b[3];
    assert a[4] == b[4] && a[5] == b[5] && a[6] == b[6] && a[7] == b[7];
    NibbleFrom(x, y, 28);
    NibbleFrom(x, y, 24);
    NibbleFrom(x, y, 20);
    NibbleFrom(x, y, 16);
    NibbleFrom(x, y, 12);
    NibbleFrom(x, y, 8);
    NibbleFrom(x, y, 4);
    NibbleFrom(x, y, 0);
    Nibbles(x, y);
  }

  /** Different hashes have different renderings. */
  lemma RenderInjective(a: Digest, b: Digest)
    ensures Render(a) == Render(b) <==> a == b
  {
    if Render(a) == Render(b) {
      assert Render(a)[..8] == Hex8(a.high) && Render(a)[8..] == Hex8(a.low);
      assert Render(b)[..8] == Hex8(b.high) && Render(b)[8..] == Hex8(b.low);
      Hex8Injective(a.high, b.high);
      Hex8Injective(a.low, b.low);
    }
  }

  // ---------------------------------------------------------------- the set

  class HashedSet {
    var members: set<Id>
    var hashHigh: bv32
    var hashLow: bv32

    /** The stored pair is the XOR over the members, however they came and went. */
    ghost predicate Valid()
      reads this
    {
      Digest(hashHigh, hashLow) == XorAll(members)
    }

    constructor (items: seq<Id>)
      ensures Valid() && members == set x | x in items
    {
      members := {};
      hashHigh := 0;
      hashLow := 0;
      new;
      XorAllEmpty();
      for i := 0 to |items|
        invariant Valid() && members == set x | x in items[..i]
      {
        assert items[..i + 1] == items[..i] + [items[i]];
        Add(items[i]);
      }
      assert items[..|items|] == items;
    }

    method Add(value: Id)
      requires Valid()
      modifies this
      ensures Valid() && members == old(members) + {value}
    {
      hide XorAll, High, Low, Word, XorWord;
      if value in members {
        assert members == members + {value};
        return;
      }
      XorAllInsert(members, value);
      XorCommutes(DigestOf(value), XorAll(members));
      members := members + {value};
      var high, low := Djb2Dual(value);
      hashHigh, hashLow := XorWord(hashHigh, Word(high)), XorWord(hashLow, Word(low));
    }

    method Delete(value: Id) returns (existed: bool)
      requires Valid()
      modifies this
      ensures Valid() && members == old(members) - {value} && existed == (value in old(members))
    {
      hide XorAll, High, Low, Word, XorWord;
      if value !in members {
        assert members == members - {value};
        return false;
      }
      XorAllDelete(members, value);
      XorCommutes(DigestOf(value), XorAll(members));
      members := members - {value};
      var high, low := Djb2Dual(value);
      hashHigh, hashLow := XorWord(hashHigh, Word(high)), XorWord(hashLow, Word(low));
      return true;
    }

    function Hash64String(): string
      reads this
    {
      Render(Digest(hashHigh, hashLow))
    }
  }
}
