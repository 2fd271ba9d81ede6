/** Hashes of known sets, and the text of a known pair. */
module HashVectors {
  import opened Bytes
  import opened HashedSets

  /** "66ad4540-b58c-4ad2-9926-ea63445a9b57" in bytes. */
  const FIRST: Id :=
    [54, 54, 97, 100] + [52, 53, 52, 48] + [45, 98, 53, 56] +
    [99, 45, 52, 97] + [100, 50, 45, 57] + [57, 50, 54, 45] +
    [101, 97, 54, 51] + [52, 52, 53, 97] + [57, 98, 53, 55]

  /** "a1b2c3d4-e5f6-7890-abcd-ef1234567890" in bytes. */
  const SECOND: Id :=
    [97, 49, 98, 50] + [99, 51, 100, 52] + [45, 101, 53, 102] +
    [54, 45, 55, 56] + [57, 48, 45, 97] + [98, 99, 100, 45] +
    [101, 102, 49, 50] + [51, 52, 53, 54] + [55, 56, 57, 48]

  lemma OneRound(done: Id, c: byte)
    ensures High(done + [c]) == Uint32(High(done) * 33 + c) && Low(done + [c]) == Uint32(Low(done) * 65 + c * 37)
  {
    HashNext(done, c);
    RoundIsLinear(High(done), 33, c);
    RoundIsLinear(Low(done), 65, c * 37);
  }

  /** Four rounds at once, cut to 32 bits in the end. */
  lemma FourRounds(id: Id, a: byte, b: byte, c: byte, d: byte)
    ensures High(id + [a, b, c, d]) == Uint32((((High(id) * 33 + a) * 33 + b) * 33 + c) * 33 + d)
    ensures Low(id + [a, b, c, d])
         == Uint32((((Low(id) * 65 + a * 37) * 65 + b * 37) * 65 + c * 37) * 65 + d * 37)
  {
    OneRound(id, a);
    OneRound(id + [a], b);
    OneRound(id + [a] + [b], c);
    OneRound(id + [a] + [b] + [c], d);
    hide High, Low, Uint32;
    assert id + [a] + [b] + [c] + [d] == id + [a, b, c, d];
    FourCutsHigh(High(id), a, b, c, d);
    FourCutsLow(Low(id), a * 37, b * 37, c * 37, d * 37);
  }

  /** The same for words worked out before. */
  lemma Four(id: Id, a: byte, b: byte, c: byte, d: byte, high: uint32, low: uint32)
    requires high == Uint32((((High(id) * 33 + a) * 33 + b) * 33 + c) * 33 + d)
    requires low == Uint32((((Low(id) * 65 + a * 37) * 65 + b * 37) * 65 + c * 37) * 65 + d * 37)
    ensures High(id + [a, b, c, d]) == high && Low(id + [a, b, c, d]) == low
  {
    hide High, Low, Uint32;
    FourRounds(id, a, b, c, d);
  }

  lemma FourCutsHigh(x: nat, a: nat, b: nat, c: nat, d: nat)
    ensures Uint32(Uint32(Uint32(Uint32(x * 33 + a) * 33 + b) * 33 + c) * 33 + d)
         == Uint32((((x * 33 + a) * 33 + b) * 33 + c) * 33 + d)
  {
    hide Uint32;
    CutInside(x * 33 + a, 33, b);
    CutInside((x * 33 + a) * 33 + b, 33, c);
    CutInside(((x * 33 + a) * 33 + b) * 33 + c, 33, d);
  }

  lemma FourCutsLow(x: nat, a: nat, b: nat, c: nat, d: nat)
    ensures Uint32(Uint32(Uint32(Uint32(x * 65 + a) * 65 + b) * 65 + c) * 65 + d)
         == Uint32((((x * 65 + a) * 65 + b) * 65 + c) * 65 + d)
  {
    hide Uint32;
    CutInside(x * 65 + a, 65, b);
    CutInside((x * 65 + a) * 65 + b, 65, c);
    CutInside(((x * 65 + a) * 65 + b) * 65 + c, 65, d);
  }

  lemma CutInside(x: nat, m: nat, c: nat)
    requires m == 33 || m == 65
    ensures Uint32(Uint32(x) * m + c) == Uint32(x * m + c)
  {
    var q := x / 0x1_0000_0000;
    assert x == q * 0x1_0000_0000 + Uint32(x);
    SameLowBits(Uint32(x) * m + c, q * m);
  }

  lemma NothingHashed()
    ensures High([]) == 5381 && Low([]) == 5387
  {
  }

  lemma FirstWords()
    ensures High(FIRST) == 0x75ccc662 && Low(FIRST) == 0xb84d9abc
  {
    NothingHashed();
    hide High, Low;
    var id: Id := [];
    Four(id, 54, 54, 97, 100, 0x7c7b9e96, 0x84e22ee0);
    assert id + [54, 54, 97, 100] == [54, 54, 97, 100];
    id := [54, 54, 97, 100];
    Four(id, 52, 53, 52, 48, 0x77d265a3, 0x26a3d501);
    id := id + [52, 53, 52, 48];
    Four(id, 45, 98, 53, 56, 0x401cd41f, 0xa7960a6d);
    id := id + [45, 98, 53, 56];
    Four(id, 99, 45, 52, 97, 0xeccedba4, 0xd1bc3e86);
    id := id + [99, 45, 52, 97];
    Four(id, 100, 50, 45, 57, 0x2a93be40, 0xd0d69d32);
    id := id + [100, 50, 45, 57];
    Four(id, 57, 50, 54, 45, 0xaee8fbae, 0x4a857b38);
    id := id + [57, 50, 54, 45];
    Four(id, 101, 97, 54, 51, 0xad7428bd, 0x07cac7c3);
    id := id + [101, 97, 54, 51];
    Four(id, 52, 52, 53, 97, 0x28c1a75b, 0x3ca81eb9);
    id := id + [52, 52, 53, 97];
    Four(id, 57, 98, 53, 55, 0x75ccc662, 0xb84d9abc);
    id := id + [57, 98, 53, 55];
  }

  lemma SecondWords()
    ensures High(SECOND) == 0x8ec5815d && Low(SECOND) == 0x4cb7ea23
  {
    NothingHashed();
    hide High, Low;
    var id: Id := [];
    Four(id, 97, 49, 98, 50, 0x7c931d8b, 0x9ee14349);
    assert id + [97, 49, 98, 50] == [97, 49, 98, 50];
    id := [97, 49, 98, 50];
    Four(id, 99, 51, 100, 52, 0xa4e41a99, 0xb362dfaf);
    id := id + [99, 51, 100, 52];
    Four(id, 45, 101, 53, 102, 0x584c2106, 0xf04831b0);
    id := id + [45, 101, 53, 102];
    Four(id, 54, 45, 55, 56, 0xf3ff9738, 0x373dc7ca);
    id := id + [54, 45, 55, 56];
    Four(id, 57, 48, 45, 97, 0x8c08872f, 0x098b2b7d);
    id := id + [57, 48, 45, 97];
    Four(id, 98, 99, 100, 45, 0xde7df605, 0x361fedeb);
    id := id + [98, 99, 100, 45];
    Four(id, 101, 102, 49, 50, 0x391c8b33, 0x5716cb91);
    id := id + [101, 102, 49, 50];
    Four(id, 51, 52, 53, 54, 0x3e21c845, 0x63aa1e6b);
    id := id + [51, 52, 53, 54];
    Four(id, 55, 56, 57, 48, 0x8ec5815d, 0x4cb7ea23);
    id := id + [55, 56, 57, 48];
  }

  lemma KnownDigests()
    ensures DigestOf(FIRST) == Digest(0x75ccc662, 0xb84d9abc)
    ensures DigestOf(SECOND) == Digest(0x8ec5815d, 0x4cb7ea23)
  {
    hide High, Low;
    FirstWords();
    SecondWords();
  }

  lemma KnownPairs()
    ensures XorAll({}) == Digest(0, 0)
    ensures XorAll({FIRST}) == Digest(0x75ccc662, 0xb84d9abc)
    ensures XorAll({FIRST, SECOND}) == Digest(0xfb09473f, 0xf4fa709f)
  {
    hide DigestOf, XorAll;
    KnownDigests();
    XorAllEmpty();
    XorAllInsert({}, FIRST);
    assert {} + {FIRST} == {FIRST};
    assert FIRST != SECOND;
    XorAllInsert({FIRST}, SECOND);
    assert {FIRST} + {SECOND} == {FIRST, SECOND};
  }

  /** The sets the repository's own tests know the hashes of. */
  lemma KnownHashes()
    ensures Render(XorAll({})) == "0000000000000000"
    ensures Render(XorAll({FIRST})) == "75ccc662b84d9abc"
    ensures Render(XorAll({FIRST, SECOND})) == "fb09473ff4fa709f"
  {
    hide XorAll, Hex8;
    KnownPairs();
    Hex8Of(0, 0, 0, 0, 0, 0, 0, 0);
    Hex8Of(7, 5, 12, 12, 12, 6, 6, 2);
    Hex8Of(11, 8, 4, 13, 9, 10, 11, 12);
    Hex8Of(15, 11, 0, 9, 4, 7, 3, 15);
    Hex8Of(15, 4, 15, 10, 7, 0, 9, 15);
  }

  /** Every digit, the high word before the low one. */
  lemma DigitsInOrder()
    ensures Render(Digest(0x01234567, 0x89abcdef)) == "0123456789abcdef"
  {
    hide Hex8;
    Hex8Of(0, 1, 2, 3, 4, 5, 6, 7);
    Hex8Of(8, 9, 10, 11, 12, 13, 14, 15);
  }

  /** A word is written from its highest four bits to its lowest. */
  lemma Hex8Of(a: bv32, b: bv32, c: bv32, d: bv32, e: bv32, f: bv32, g: bv32, h: bv32)
    requires a < 16 && b < 16 && c < 16 && d < 16 && e < 16 && f < 16 && g < 16 && h < 16
    ensures Hex8(Packed(a, b, c, d, e, f, g, h))
         == [HexDigit(a), HexDigit(b), HexDigit(c), HexDigit(d), HexDigit(e), HexDigit(f), HexDigit(g), HexDigit(h)]
  {
    PackedHigh(a, b, c, d, e, f, g, h);
    PackedLow(a, b, c, d, e, f, g, h);
    hide Packed, HexDigit, Nibble;
  }

  function Packed(a: bv32, b: bv32, c: bv32, d: bv32, e: bv32, f: bv32, g: bv32, h: bv32): bv32 {
    (a << 28) | (b << 24) | (c << 20) | (d << 16) | (e << 12) | (f << 8) | (g << 4) | h
  }

  lemma PackedHigh(a: bv32, b: bv32, c: bv32, d: bv32, e: bv32, f: bv32, g: bv32, h: bv32)
    requires a < 16 && b < 16 && c < 16 && d < 16 && e < 16 && f < 16 && g < 16 && h < 16
    ensures Nibble(Packed(a, b, c, d, e, f, g, h), 28) == a && Nibble(Packed(a, b, c, d, e, f, g, h), 24) == b
    ensures Nibble(Packed(a, b, c, d, e, f, g, h), 20) == c && Nibble(Packed(a, b, c, d, e, f, g, h), 16) == d
  {
  }

  lemma PackedLow(a: bv32, b: bv32, c: bv32, d: bv32, e: bv32, f: bv32, g: bv32, h: bv32)
    requires a < 16 && b < 16 && c < 16 && d < 16 && e < 16 && f < 16 && g < 16 && h < 16
    ensures Nibble(Packed(a, b, c, d, e, f, g, h), 12) == e && Nibble(Packed(a, b, c, d, e, f, g, h), 8) == f
    ensures Nibble(Packed(a, b, c, d, e, f, g, h), 4) == g && Nibble(Packed(a, b, c, d, e, f, g, h), 0) == h
  {
  }
}
