/** The layout of the ASN prefix database: a header, one index entry per AS number in increasing
    order, and the prefix records of each AS number. */
module AsnFormat {
  import opened Bytes

  /** "RWASNDB", then the format version. */
  const MAGIC: seq<byte> := [0x52, 0x57, 0x41, 0x53, 0x4e, 0x44, 0x42, 0x01]
  const HEADER_LEN := 16
  const ENTRY_LEN := 16
  const V4_RECORD := 5
  const V6_RECORD := 17

  // ---------------------------------------------------------------- little endian

  function Pow256(k: nat): (p: nat)
    ensures p > 0
  {
    if k == 0 then 1 else 256 * Pow256(k - 1)
  }

  function LittleEndian(n: nat, k: nat): (b: seq<byte>)
    ensures |b| == k
  {
    if k == 0 then [] else [n % 256] + LittleEndian(n / 256, k - 1)
  }

  function FromLittleEndian(b: seq<byte>): nat {
    if b == [] then 0 else b[0] + 256 * FromLittleEndian(b[1..])
  }

  lemma {:induction false} LittleEndianRoundTrip(n: nat, k: nat)
    requires n < Pow256(k)
    ensures FromLittleEndian(LittleEndian(n, k)) == n
  {
    if k > 0 {
      LittleEndianRoundTrip(n / 256, k - 1);
      assert LittleEndian(n, k)[1..] == LittleEndian(n / 256, k - 1);
    }
  }

  /** Byte `j` is digit `j` to the base 256. */
  lemma {:induction false} LittleEndianAt(n: nat, k: nat, j: nat)
    requires j < k
    ensures LittleEndian(n, k)[j] == n / Pow256(j) % 256
  {
    if j > 0 {
      LittleEndianAt(n / 256, k - 1, j - 1);
      DivideTwice(n, 256, Pow256(j - 1));
    }
  }

  lemma DivideTwice(n: nat, a: nat, b: nat)
    requires a > 0 && b > 0
    ensures a * b > 0 && n / a / b == n / (a * b)
  {
    var q, r := n / a, n % a;
    var p, t := q / b, q % b;
    assert n == q * a + r && q == p * b + t;
    var ab, ta := a * b, t * a;
    Regroup(q, p, t, a, b);
    assert n == p * ab + (ta + r);
    QuotientIs(n, ab, p, ta + r);
  }

  lemma Regroup(q: nat, p: nat, t: nat, a: nat, b: nat)
    requires t < b && a > 0 && q == p * b + t
    ensures a * b > 0 && q * a == p * (a * b) + t * a && t * a + a <= a * b
  {
    var m := b - t - 1;
    assert a * b == t * a + a + m * a;
    assert (p * b) * a == p * (a * b);
  }

  lemma QuotientIs(x: nat, m: nat, q: nat, r: nat)
    requires m > 0 && r < m && x == q * m + r
    ensures x / m == q && x % m == r
  {
    var d := x / m - q;
    assert x == (x / m) * m + x % m;
    assert d * m == (x / m) * m - q * m;
    assert 0 < d * m + m && d * m < m;
    NoWholeStep(d, m);
  }

  lemma NoWholeStep(d: int, m: nat)
    requires 0 < d * m + m && d * m < m
    ensures d == 0
  {
  }

  /** Every string of bytes is the digits of the number it is read as. */
  lemma {:induction false} LittleEndianBack(b: seq<byte>)
    ensures LittleEndian(FromLittleEndian(b), |b|) == b
  {
    if b != [] {
      LittleEndianBack(b[1..]);
      var rest := FromLittleEndian(b[1..]);
      assert (b[0] + 256 * rest) % 256 == b[0] && (b[0] + 256 * rest) / 256 == rest;
    }
  }

  lemma {:induction false} FromLittleEndianBound(b: seq<byte>)
    ensures FromLittleEndian(b) < Pow256(|b|)
  {
    if b != [] { FromLittleEndianBound(b[1..]); }
  }

  lemma Pow256Values()
    ensures Pow256(2) == 0x1_0000 && Pow256(4) == TWO32 && Pow256(8) == TWO64
  {
    assert Pow256(3) == 0x100_0000 && Pow256(5) == 0x100_0000_0000 && Pow256(6) == 0x1_0000_0000_0000;
    assert Pow256(7) == 0x100_0000_0000_0000;
  }

  // ---------------------------------------------------------------- prefixes

  /** An address block; `bits` is out of range for an invalid one. */
  datatype Prefix = Prefix(addr: seq<byte>, bits: int) {
    predicate IsValid() {
      (|addr| == 4 || |addr| == 16) && 0 <= bits <= 8 * |addr|
    }

    predicate Is4() {
      |addr| == 4
    }

    /** The same block with its host bits cleared. */
    function Masked(): Prefix
      requires IsValid()
    {
      Prefix(seq(|addr|, i requires 0 <= i < |addr| => MaskByte(addr[i], bits - 8 * i)), bits)
    }
  }

  /** The first `keep` bits of a byte. */
  function MaskByte(b: byte, keep: int): byte {
    if keep <= 0 then 0 else
    match keep
    case 1 => b - b % 128
    case 2 => b - b % 64
    case 3 => b - b % 32
    case 4 => b - b % 16
    case 5 => b - b % 8
    case 6 => b - b % 4
    case 7 => b - b % 2
    case _ => b
  }

  /** `netip.PrefixFrom`: an impossible length makes the prefix invalid. */
  function PrefixFrom(addr: seq<byte>, bits: byte): Prefix {
    Prefix(addr, if bits <= 8 * |addr| then bits else -1)
  }

  datatype Entry = Entry(asn: uint32, ipv4: seq<Prefix>, ipv6: seq<Prefix>)

  /** The valid prefixes of one family, masked, in their order. */
  function Normalize(ps: seq<Prefix>, wantV4: bool): (out: seq<Prefix>)
    ensures |out| <= |ps|
    ensures forall p <- out :: p.IsValid() && p.Is4() == wantV4
  {
    if ps == [] then [] else
    var rest, p := Normalize(ps[..|ps| - 1], wantV4), ps[|ps| - 1];
    if p.IsValid() && p.Is4() == wantV4 then rest + [p.Masked()] else rest
  }

  // ---------------------------------------------------------------- what normalising means

  /** An address as a number. */
  function Number(addr: seq<byte>): nat {
    if addr == [] then 0 else 256 * Number(addr[..|addr| - 1]) + addr[|addr| - 1]
  }

  function Pow2(n: nat): (p: nat)
    ensures p > 0
  {
    if n == 0 then 1 else 2 * Pow2(n - 1)
  }

  /** One prefix is the other one with its host bits cleared: the address as a number loses exactly what
      its last bits amount to. */
  ghost predicate IsMaskOf(q: Prefix, p: Prefix) {
    && q.bits == p.bits && |q.addr| == |p.addr| && 0 <= p.bits <= 8 * |p.addr|
    && Number(q.addr) == Number(p.addr) - Number(p.addr) % Pow2(8 * |p.addr| - p.bits)
  }

  /** A prefix of the family: 4 or 16 bytes, and a length that fits. */
  predicate Wanted(p: Prefix, wantV4: bool) {
    |p.addr| == (if wantV4 then 4 else 16) && 0 <= p.bits <= 8 * |p.addr|
  }

  predicate Rising(at: seq<nat>) {
    forall j, k | 0 <= j < k < |at| :: at[j] < at[k]
  }

  /** `at` lists the places of the wanted prefixes in order, and `out` holds their masked forms. */
  ghost predicate SelectedAt(ps: seq<Prefix>, wantV4: bool, out: seq<Prefix>, at: seq<nat>) {
    && |at| == |out|
    && (forall k | 0 <= k < |at| :: at[k] < |ps| && Wanted(ps[at[k]], wantV4) && IsMaskOf(out[k], ps[at[k]]))
    && Rising(at)
    && (forall i | 0 <= i < |ps| && Wanted(ps[i], wantV4) :: i in at)
  }

  /** The masked forms of exactly the wanted prefixes, in their order. */
  ghost predicate Selects(ps: seq<Prefix>, wantV4: bool, out: seq<Prefix>) {
    exists at :: SelectedAt(ps, wantV4, out, at)
  }

  lemma {:induction false} NormalizeSelects(ps: seq<Prefix>, wantV4: bool) returns (at: seq<nat>)
    ensures SelectedAt(ps, wantV4, Normalize(ps, wantV4), at)
  {
    at := [];
    if ps != [] {
      var n := |ps| - 1;
      at := NormalizeSelects(ps[..n], wantV4);
      var out := Normalize(ps[..n], wantV4);
      if Wanted(ps[n], wantV4) {
        MaskedMeans(ps[n]);
        SelectMore(ps, n, wantV4, out, at, ps[n].Masked());
        at := at + [n];
      } else {
        SelectNoMore(ps, n, wantV4, out, at);
      }
    }
  }

  lemma SelectMore(ps: seq<Prefix>, n: nat, wantV4: bool, out: seq<Prefix>, at: seq<nat>, q: Prefix)
    requires n + 1 == |ps| && SelectedAt(ps[..n], wantV4, out, at) && Wanted(ps[n], wantV4) && IsMaskOf(q, ps[n])
    ensures SelectedAt(ps, wantV4, out + [q], at + [n])
  {
    hide IsMaskOf, Wanted;
    var all := at + [n];
    forall i | 0 <= i < |ps| && Wanted(ps[i], wantV4) ensures i in all {
      if i < n { assert ps[..n][i] == ps[i] && i in at; } else { assert all[|at|] == n; }
    }
  }

  lemma SelectNoMore(ps: seq<Prefix>, n: nat, wantV4: bool, out: seq<Prefix>, at: seq<nat>)
    requires n + 1 == |ps| && SelectedAt(ps[..n], wantV4, out, at) && !Wanted(ps[n], wantV4)
    ensures SelectedAt(ps, wantV4, out, at)
  {
    hide IsMaskOf, Wanted, Rising;
    forall i | 0 <= i < |ps| && Wanted(ps[i], wantV4) ensures i in at { assert ps[..n][i] == ps[i]; }
  }

  function WantedPlaces(ps: seq<Prefix>, wantV4: bool): set<int> {
    set i | 0 <= i < |ps| && Wanted(ps[i], wantV4)
  }

  function Places(at: seq<nat>): set<int> {
    set i | i in at
  }

  /** What is selected is as long as there are wanted prefixes. */
  lemma SelectedCount(ps: seq<Prefix>, wantV4: bool, out: seq<Prefix>)
    requires Selects(ps, wantV4, out)
    ensures |out| == |WantedPlaces(ps, wantV4)|
  {
    var at :| SelectedAt(ps, wantV4, out, at);
    SamePlaces(ps, wantV4, out, at);
    RisingCount(at);
  }

  lemma SamePlaces(ps: seq<Prefix>, wantV4: bool, out: seq<Prefix>, at: seq<nat>)
    requires SelectedAt(ps, wantV4, out, at)
    ensures Places(at) == WantedPlaces(ps, wantV4) && Rising(at) && |at| == |out|
  {
    hide IsMaskOf, Wanted, Rising;
    forall i | i in at ensures i in WantedPlaces(ps, wantV4) {
      var k :| 0 <= k < |at| && at[k] == i;
    }
  }

  lemma {:induction false} RisingCount(at: seq<nat>)
    requires Rising(at)
    ensures |Places(at)| == |at|
  {
    hide Rising, Places;
    if at == [] {
      assert Places([]) == {} by { NoPlaces(); }
    } else {
      var n := |at| - 1;
      LastIsNew(at);
      RisingCount(at[..n]);
      assert at == at[..n] + [at[n]];
      OneMorePlace(at[..n], at[n]);
    }
  }

  lemma NoPlaces()
    ensures Places([]) == {}
  {
  }

  lemma OneMorePlace(at: seq<nat>, last: nat)
    requires last !in at
    ensures |Places(at + [last])| == |Places(at)| + 1
  {
    assert Places(at + [last]) == Places(at) + {last};
  }

  lemma LastIsNew(at: seq<nat>)
    requires Rising(at) && at != []
    ensures Rising(at[..|at| - 1]) && at[|at| - 1] !in at[..|at| - 1]
  {
  }

  lemma MaskedMeans(p: Prefix)
    requires p.IsValid()
    ensures IsMaskOf(p.Masked(), p)
  {
    var bytes := MaskBytes(p.addr, p.bits);
    assert p.Masked().addr == bytes;
    MaskNumber(p.addr, p.bits);
  }

  function MaskBytes(addr: seq<byte>, bits: int): (m: seq<byte>)
    ensures |m| == |addr|
  {
    seq(|addr|, i requires 0 <= i < |addr| => MaskByte(addr[i], bits - 8 * i))
  }

  /** Masking byte by byte clears the low end of the number. */
  lemma {:induction false} MaskNumber(addr: seq<byte>, bits: nat)
    requires bits <= 8 * |addr|
    ensures Number(MaskBytes(addr, bits)) == Number(addr) - Number(addr) % Pow2(8 * |addr| - bits)
  {
    if addr != [] {
      var n := |addr| - 1;
      var init, last := addr[..n], addr[n];
      assert MaskBytes(addr, bits)[..n] == MaskBytes(init, bits);
      if bits >= 8 * n {
        assert MaskBytes(init, bits) == init;
        LastByteMasked(Number(init), last, bits - 8 * n);
      } else {
        MaskNumber(init, bits);
        LastByteCleared(Number(init), last, 8 * n - bits);
      }
    }
  }

  lemma LastByteMasked(n: nat, b: byte, keep: nat)
    requires keep <= 8
    ensures 256 * n + MaskByte(b, keep) == (256 * n + b) - (256 * n + b) % Pow2(8 - keep)
  {
    SmallPowers();
    match keep
    case 0 => LowBits(n, b, 256, 1);
    case 1 => LowBits(n, b, 128, 2);
    case 2 => LowBits(n, b, 64, 4);
    case 3 => LowBits(n, b, 32, 8);
    case 4 => LowBits(n, b, 16, 16);
    case 5 => LowBits(n, b, 8, 32);
    case 6 => LowBits(n, b, 4, 64);
    case 7 => LowBits(n, b, 2, 128);
    case 8 => LowBits(n, b, 1, 256);
  }

  lemma SmallPowers()
    ensures Pow2(0) == 1 && Pow2(1) == 2 && Pow2(2) == 4 && Pow2(3) == 8
    ensures Pow2(4) == 16 && Pow2(5) == 32 && Pow2(6) == 64 && Pow2(7) == 128 && Pow2(8) == 256
  {
  }

  lemma LowBits(n: nat, b: byte, m: nat, k: nat)
    requires m > 0 && m * k == 256
    ensures (256 * n + b) % m == b % m
  {
    var q := k * n + b / m;
    assert q * m == (m * k) * n + (b / m) * m;
    QuotientIs(256 * n + b, m, q, b % m);
  }

  lemma LastByteCleared(n: nat, b: byte, h: nat)
    ensures 256 * (n - n % Pow2(h)) == (256 * n + b) - (256 * n + b) % Pow2(h + 8)
  {
    var m := Pow2(h);
    EightMore(h);
    var q, r := n / m, n % m;
    assert n == q * m + r;
    assert q * (256 * m) == 256 * (q * m);
    assert 256 * r + b < 256 * m;
    QuotientIs(256 * n + b, 256 * m, q, 256 * r + b);
  }

  lemma EightMore(h: nat)
    ensures Pow2(h + 8) == 256 * Pow2(h)
  {
    assert Pow2(h + 2) == 4 * Pow2(h);
    assert Pow2(h + 4) == 4 * Pow2(h + 2);
    assert Pow2(h + 6) == 4 * Pow2(h + 4);
    assert Pow2(h + 8) == 4 * Pow2(h + 6);
  }

  // ---------------------------------------------------------------- layout

  function Concat(bs: seq<seq<byte>>): seq<byte> {
    if bs == [] then [] else Concat(bs[..|bs| - 1]) + bs[|bs| - 1]
  }

  function Record(p: Prefix): seq<byte>
    requires p.IsValid()
  {
    p.addr + [p.bits]
  }

  function Records(ps: seq<Prefix>): seq<seq<byte>>
    requires forall p <- ps :: p.IsValid()
  {
    seq(|ps|, i requires 0 <= i < |ps| => assert ps[i] in ps; Record(ps[i]))
  }

  function Blob(e: Entry): seq<byte> {
    Concat(Records(Normalize(e.ipv4, true))) + Concat(Records(Normalize(e.ipv6, false)))
  }

  function Blobs(es: seq<Entry>): seq<seq<byte>> {
    seq(|es|, i requires 0 <= i < |es| => Blob(es[i]))
  }

  function IndexEntry(e: Entry, off: nat): (b: seq<byte>)
    ensures |b| == ENTRY_LEN
  {
    LittleEndian(e.asn, 4) + LittleEndian(off, 8)
    + LittleEndian(|Normalize(e.ipv4, true)|, 2) + LittleEndian(|Normalize(e.ipv6, false)|, 2)
  }

  /** Where blob `i` starts, if the first one starts at `base`. */
  function Offset(blobs: seq<seq<byte>>, base: nat, i: nat): nat
    requires i <= |blobs|
  {
    base + |Concat(blobs[..i])|
  }

  function IndexEntries(es: seq<Entry>, base: nat): seq<seq<byte>> {
    seq(|es|, i requires 0 <= i < |es| => IndexEntry(es[i], Offset(Blobs(es), base, i)))
  }

  function Header(count: nat): (b: seq<byte>)
    ensures |b| == HEADER_LEN
  {
    MAGIC + LittleEndian(count, 4) + [0, 0, 0, 0]
  }

  function IndexEnd(count: nat): nat {
    HEADER_LEN + ENTRY_LEN * count
  }

  /** The whole database. */
  function Encode(es: seq<Entry>): seq<byte> {
    Header(|es|) + Concat(IndexEntries(es, IndexEnd(|es|))) + Concat(Blobs(es))
  }

  // ---------------------------------------------------------------- order

  predicate Sorted(es: seq<Entry>) {
    forall i, j | 0 <= i < j < |es| :: es[i].asn <= es[j].asn
  }

  predicate Increasing(es: seq<Entry>) {
    forall i, j | 0 <= i < j < |es| :: es[i].asn < es[j].asn
  }

  predicate Distinct(es: seq<Entry>) {
    forall i, j | 0 <= i < j < |es| :: es[i].asn != es[j].asn
  }

  /** What makes a list of entries a database. */
  ghost predicate Acceptable(es: seq<Entry>) {
    && (forall e <- es :: e.asn != 0)
    && (forall e <- es :: |Normalize(e.ipv4, true)| <= 65535 && |Normalize(e.ipv6, false)| <= 65535)
    && Distinct(es)
  }

  /** Non-zero distinct numbers, and no more than 65535 wanted prefixes of each family. */
  lemma AcceptableIff(es: seq<Entry>)
    ensures Acceptable(es)
       <==> && (forall e <- es :: e.asn != 0 && |WantedPlaces(e.ipv4, true)| <= 65535
                                  && |WantedPlaces(e.ipv6, false)| <= 65535)
            && (forall i, j | 0 <= i < j < |es| :: es[i].asn != es[j].asn)
  {
    hide Normalize, WantedPlaces;
    forall e | e in es
      ensures |Normalize(e.ipv4, true)| == |WantedPlaces(e.ipv4, true)|
      ensures |Normalize(e.ipv6, false)| == |WantedPlaces(e.ipv6, false)|
    {
      NormalizeCount(e.ipv4, true);
      NormalizeCount(e.ipv6, false);
    }
  }

  lemma NormalizeCount(ps: seq<Prefix>, wantV4: bool)
    ensures Selects(ps, wantV4, Normalize(ps, wantV4))
    ensures |Normalize(ps, wantV4)| == |WantedPlaces(ps, wantV4)|
  {
    var at := NormalizeSelects(ps, wantV4);
    SelectedCount(ps, wantV4, Normalize(ps, wantV4));
  }

  /** Distinct non-zero 32-bit numbers in order: the one at `i` is larger than `i`. */
  lemma {:induction false} AsnAbovePosition(es: seq<Entry>, i: nat)
    requires Increasing(es) && (forall e <- es :: e.asn != 0) && i < |es|
    ensures es[i].asn >= i + 1
  {
    if i == 0 {
      assert es[0] in es;
    } else {
      AsnAbovePosition(es, i - 1);
      assert es[i - 1].asn < es[i].asn;
    }
  }

  // ---------------------------------------------------------------- sizes and positions

  lemma ConcatNext(bs: seq<seq<byte>>, i: nat)
    requires i < |bs|
    ensures Concat(bs[..i + 1]) == Concat(bs[..i]) + bs[i]
  {
    assert bs[..i + 1][..i] == bs[..i];
  }

  lemma {:induction false} ConcatAt(bs: seq<seq<byte>>, i: nat)
    requires i < |bs|
    ensures |Concat(bs[..i])| + |bs[i]| <= |Concat(bs)|
    ensures Concat(bs)[|Concat(bs[..i])|..|Concat(bs[..i])| + |bs[i]|] == bs[i]
  {
    var n := |bs| - 1;
    var init := Concat(bs[..n]);
    assert Concat(bs) == init + bs[n];
    hide Concat;
    if i < n {
      ConcatAt(bs[..n], i);
      assert bs[..n][..i] == bs[..i] && bs[..n][i] == bs[i];
      SliceOfFront(init, bs[n], |Concat(bs[..i])|, |Concat(bs[..i])| + |bs[i]|);
    }
  }

  lemma SliceOfFront<T>(a: seq<T>, b: seq<T>, from: nat, to: nat)
    requires from <= to <= |a|
    ensures (a + b)[from..to] == a[from..to]
  {
  }

  lemma MulNext(w: nat, n: nat)
    ensures w * (n + 1) == w * n + w
  {
  }

  /** Equal pieces sit at multiples of their width. */
  lemma {:induction false} ConcatEven(bs: seq<seq<byte>>, w: nat)
    requires forall b <- bs :: |b| == w
    ensures |Concat(bs)| == w * |bs|
  {
    if bs != [] {
      var n := |bs| - 1;
      ConcatEven(bs[..n], w);
      MulNext(w, n);
      assert bs[n] in bs;
    }
  }

  lemma ConcatEvenAt(bs: seq<seq<byte>>, w: nat, i: nat)
    requires (forall b <- bs :: |b| == w) && i < |bs|
    ensures |Concat(bs)| == w * |bs| && 0 <= w * i <= w * i + w <= w * |bs|
    ensures Concat(bs)[w * i..w * i + w] == bs[i]
  {
    assert bs[i] in bs;
    ConcatEven(bs, w);
    ConcatEven(bs[..i], w);
    ConcatAt(bs, i);
  }

  lemma {:induction false} ConcatBound(bs: seq<seq<byte>>, w: nat)
    requires forall b <- bs :: |b| <= w
    ensures |Concat(bs)| <= w * |bs|
  {
    if bs != [] {
      var n := |bs| - 1;
      ConcatBound(bs[..n], w);
      MulNext(w, n);
      assert bs[n] in bs;
    }
  }

  lemma RecordsEven(ps: seq<Prefix>, v4: bool)
    requires forall p <- ps :: p.IsValid() && p.Is4() == v4
    ensures forall r <- Records(ps) :: |r| == if v4 then V4_RECORD else V6_RECORD
  {
    forall r | r in Records(ps) ensures |r| == if v4 then V4_RECORD else V6_RECORD {
      var k :| 0 <= k < |ps| && Records(ps)[k] == r;
      assert ps[k] in ps;
    }
  }

  lemma BlobSize(e: Entry)
    ensures |Blob(e)| == |Normalize(e.ipv4, true)| * V4_RECORD + |Normalize(e.ipv6, false)| * V6_RECORD
  {
    RecordsEven(Normalize(e.ipv4, true), true);
    ConcatEven(Records(Normalize(e.ipv4, true)), V4_RECORD);
    RecordsEven(Normalize(e.ipv6, false), false);
    ConcatEven(Records(Normalize(e.ipv6, false)), V6_RECORD);
  }

  /** Every blob is small, so the first blobs are not large together. */
  lemma BlobsTotal(es: seq<Entry>, i: nat)
    requires i <= |es|
    requires forall e <- es[..i] :: |Normalize(e.ipv4, true)| <= 65535 && |Normalize(e.ipv6, false)| <= 65535
    ensures |Concat(Blobs(es)[..i])| <= 1441770 * i
  {
    var before := Blobs(es)[..i];
    forall b | b in before ensures |b| <= 1441770 {
      var k :| 0 <= k < i && before[k] == b;
      assert es[k] in es[..i];
      BlobSize(es[k]);
    }
    ConcatBound(before, 1441770);
  }

  /** Every offset of an acceptable database fits in far fewer than 63 bits. */
  lemma DataBound(es: seq<Entry>, i: nat)
    requires forall e <- es :: |Normalize(e.ipv4, true)| <= 65535 && |Normalize(e.ipv6, false)| <= 65535
    requires |es| < TWO32 && i <= |es|
    ensures Offset(Blobs(es), IndexEnd(|es|), i) < TWO53
  {
    BlobsTotal(es, i);
  }
}
