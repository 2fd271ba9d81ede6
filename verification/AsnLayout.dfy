/** Where in a database file everything is, byte by byte. */
module AsnLayout {
  import opened AsnFormat
  import opened AsnDb
  import opened Bytes
  import AsnWriter

  /** The file written for some entries, and the entries in the order of their numbers. */
  ghost function File(entries: seq<Entry>): seq<byte> {
    Encode(AsnWriter.SortByAsn(entries))
  }

  ghost function InOrder(entries: seq<Entry>): (es: seq<Entry>)
    ensures |es| == |entries|
  {
    AsnWriter.SortByAsn(entries)
  }

  function V4s(e: Entry): (ps: seq<Prefix>)
    ensures forall p <- ps :: p.IsValid() && |p.addr| == 4
  {
    Normalize(e.ipv4, true)
  }

  function V6s(e: Entry): (ps: seq<Prefix>)
    ensures forall p <- ps :: p.IsValid() && |p.addr| == 16
  {
    Normalize(e.ipv6, false)
  }

  /** Where the records of entry `i` begin. */
  function DataStart(es: seq<Entry>, i: nat): nat
    requires i <= |es|
  {
    if i == 0 then 16 + 16 * |es| else DataStart(es, i - 1) + 5 * |V4s(es[i - 1])| + 17 * |V6s(es[i - 1])|
  }

  lemma {:induction false} DataStartIs(es: seq<Entry>, i: nat)
    requires i <= |es|
    ensures DataStart(es, i) == Offset(Blobs(es), IndexEnd(|es|), i)
  {
    hide Blob, Normalize;
    if i == 0 {
      assert Blobs(es)[..0] == [];
    } else {
      DataStartIs(es, i - 1);
      ConcatNext(Blobs(es), i - 1);
      BlobSize(es[i - 1]);
    }
  }

  /** The name of the format, the number of entries, and four zeros. */
  lemma HeaderLayout(entries: seq<Entry>)
    requires Acceptable(entries)
    ensures |File(entries)| >= 16
    ensures File(entries)[..8] == [0x52, 0x57, 0x41, 0x53, 0x4e, 0x44, 0x42, 0x01]
    ensures File(entries)[8..12] == LittleEndian(|entries|, 4) && File(entries)[12..16] == [0, 0, 0, 0]
  {
    hide Concat, IndexEntries, Blobs, LittleEndian, Acceptable;
    var es := AsnWriter.SortByAsn(entries);
    HeaderFront(|es|, Concat(IndexEntries(es, IndexEnd(|es|))) + Concat(Blobs(es)));
    assert Encode(es) == Header(|es|) + (Concat(IndexEntries(es, IndexEnd(|es|))) + Concat(Blobs(es)));
  }

  lemma HeaderFront(count: nat, rest: seq<byte>)
    ensures var file := Header(count) + rest;
            && |file| >= 16 && file[..8] == [0x52, 0x57, 0x41, 0x53, 0x4e, 0x44, 0x42, 0x01]
            && file[8..12] == LittleEndian(count, 4) && file[12..16] == [0, 0, 0, 0]
  {
  }

  /** Index entry `i`: the number, where the records begin, and how many there are of each family. */
  lemma IndexLayout(entries: seq<Entry>, i: nat)
    requires Acceptable(entries) && i < |entries|
    ensures var file, es, at := File(entries), InOrder(entries), 16 + 16 * i;
            && at + 16 <= |file|
            && file[at..at + 4] == LittleEndian(es[i].asn, 4)
            && file[at + 4..at + 12] == LittleEndian(DataStart(es, i), 8)
            && file[at + 12..at + 14] == LittleEndian(|V4s(es[i])|, 2)
            && file[at + 14..at + 16] == LittleEndian(|V6s(es[i])|, 2)
  {
    hide Concat, LittleEndian, Acceptable, Normalize, Blob, IndexEntry, AsnWriter.SortByAsn, DataStart;
    var es := InOrder(entries);
    var base, off := IndexEnd(|es|), DataStart(es, i);
    DataStartIs(es, i);
    IndexEntriesEven(es, base);
    PartInFile(Header(|es|), IndexEntries(es, base), Concat(Blobs(es)), i);
    EntryLayout(es[i], off);
    var b := IndexEntry(es[i], off);
    SubSlice(File(entries), 16 + 16 * i, 16, 0, 4);
    SubSlice(File(entries), 16 + 16 * i, 16, 4, 12);
    SubSlice(File(entries), 16 + 16 * i, 16, 12, 14);
    SubSlice(File(entries), 16 + 16 * i, 16, 14, 16);
  }

  lemma EntryLayout(e: Entry, off: nat)
    ensures var b := IndexEntry(e, off);
            && b[0..4] == LittleEndian(e.asn, 4) && b[4..12] == LittleEndian(off, 8)
            && b[12..14] == LittleEndian(|V4s(e)|, 2) && b[14..16] == LittleEndian(|V6s(e)|, 2)
  {
    hide LittleEndian, Normalize;
    FourParts(LittleEndian(e.asn, 4), LittleEndian(off, 8), LittleEndian(|V4s(e)|, 2), LittleEndian(|V6s(e)|, 2));
  }

  /** The IPv4 records of entry `i`: each an address of 4 bytes and a length. */
  lemma V4Layout(entries: seq<Entry>, i: nat, k: nat)
    requires Acceptable(entries) && i < |entries| && k < |V4s(InOrder(entries)[i])|
    ensures var file, at := File(entries), DataStart(InOrder(entries), i) + 5 * k;
            var p := V4s(InOrder(entries)[i])[k];
            at + 5 <= |file| && file[at..at + 4] == p.addr && file[at + 4] == p.bits
  {
    hide Concat, Acceptable, Normalize, Blob, AsnWriter.SortByAsn, DataStart, Encode, V4s;
    var file, es := File(entries), InOrder(entries);
    DataStartIs(es, i);
    EncodedBlob(es, i);
    BlobV4(es[i], k);
    var at, len := DataStart(es, i), |Blob(es[i])|;
    SubSlice(file, at, len, 5 * k, 5 * k + 4);
    assert file[at + (5 * k + 4)] == file[at..at + len][5 * k + 4];
  }

  /** After them its IPv6 records, with addresses of 16 bytes. */
  lemma V6Layout(entries: seq<Entry>, i: nat, k: nat)
    requires Acceptable(entries) && i < |entries| && k < |V6s(InOrder(entries)[i])|
    ensures var file, e := File(entries), InOrder(entries)[i];
            var at, p := DataStart(InOrder(entries), i) + 5 * |V4s(e)| + 17 * k, V6s(e)[k];
            at + 17 <= |file| && file[at..at + 16] == p.addr && file[at + 16] == p.bits
  {
    hide Concat, Acceptable, Normalize, Blob, AsnWriter.SortByAsn, DataStart, Encode, V4s, V6s;
    var file, es := File(entries), InOrder(entries);
    DataStartIs(es, i);
    EncodedBlob(es, i);
    BlobV6(es[i], k);
    var at, len, n := DataStart(es, i), |Blob(es[i])|, 5 * |V4s(es[i])| + 17 * k;
    SubSlice(file, at, len, n, n + 16);
    assert file[at + (n + 16)] == file[at..at + len][n + 16];
  }

  lemma BlobV4(e: Entry, k: nat)
    requires k < |V4s(e)|
    ensures var b, p := Blob(e), V4s(e)[k];
            5 * k + 5 <= |b| && b[5 * k..5 * k + 4] == p.addr && b[5 * k + 4] == p.bits
  {
    hide Concat, Normalize, Records;
    var r4, r6 := Concat(Records(V4s(e))), Concat(Records(V6s(e)));
    assert Blob(e) == r4 + r6;
    RecordIn(r4, V4s(e), k, 5);
    FrontOf(r4, r6, 5 * k, 5);
  }

  lemma BlobV6(e: Entry, k: nat)
    requires k < |V6s(e)|
    ensures var b, p, at := Blob(e), V6s(e)[k], 5 * |V4s(e)| + 17 * k;
            at + 17 <= |b| && b[at..at + 16] == p.addr && b[at + 16] == p.bits
  {
    hide Concat, Normalize, Records;
    var r4, r6 := Concat(Records(V4s(e))), Concat(Records(V6s(e)));
    assert Blob(e) == r4 + r6;
    RecordsEven(V4s(e), true);
    ConcatEven(Records(V4s(e)), 5);
    assert |Records(V4s(e))| == |V4s(e)| by { RecordCount(V4s(e)); }
    RecordIn(r6, V6s(e), k, 17);
    BackOf(r4, r6, 17 * k, 17);
  }

  lemma RecordCount(ps: seq<Prefix>)
    requires forall p <- ps :: p.IsValid()
    ensures |Records(ps)| == |ps|
  {
  }

  lemma RecordIn(r: seq<byte>, ps: seq<Prefix>, k: nat, w: nat)
    requires (forall p <- ps :: p.IsValid() && |p.addr| + 1 == w) && k < |ps| && r == Concat(Records(ps))
    ensures 0 <= w * k <= w * k + w <= |r| && r[w * k..w * k + w] == ps[k].addr + [ps[k].bits]
  {
    forall b | b in Records(ps) ensures |b| == w {
      var j :| 0 <= j < |ps| && Records(ps)[j] == b;
      assert ps[j] in ps;
    }
    ConcatEvenAt(Records(ps), w, k);
    assert ps[k] in ps;
  }

  lemma FrontOf(a: seq<byte>, b: seq<byte>, at: nat, w: nat)
    requires w > 0 && at + w <= |a|
    ensures at + w <= |a + b| && (a + b)[at..at + w - 1] == a[at..at + w][..w - 1]
    ensures (a + b)[at + w - 1] == a[at..at + w][w - 1]
  {
  }

  lemma BackOf(a: seq<byte>, b: seq<byte>, at: nat, w: nat)
    requires w > 0 && at + w <= |b|
    ensures |a| + at + w <= |a + b| && (a + b)[|a| + at..|a| + at + w - 1] == b[at..at + w][..w - 1]
    ensures (a + b)[|a| + at + w - 1] == b[at..at + w][w - 1]
  {
  }

  // ---------------------------------------------------------------- any file

  /** The number in `width` bytes. */
  function Word(file: seq<byte>, at: nat, width: nat): nat
    requires at + width <= |file|
  {
    FromLittleEndian(file[at..at + width])
  }

  /** The files that can be opened: the format's name, an index that fits, numbers from above zero in
      increasing order, and records between the index and the end of the file. */
  lemma OpensIff(file: seq<byte>)
    ensures WellFormed(file)
       <==> && |file| >= 16 && file[..8] == [0x52, 0x57, 0x41, 0x53, 0x4e, 0x44, 0x42, 0x01]
            && 16 + 16 * Word(file, 8, 4) <= |file|
            && forall i: nat | i < Word(file, 8, 4) :: EntryFine(file, Word(file, 8, 4), i)
  {
    if HasIndex(file) {
      var n := Word(file, 8, 4);
      assert n == Count(file);
      if WellFormed(file) {
        forall i: nat | i < n ensures EntryFine(file, n, i) {
          EntryFineIff(file, i);
          assert Asn(file, i) != 0 && BlobInFile(file, i);
        }
      }
      if forall i: nat | i < n :: EntryFine(file, n, i) {
        forall i: nat | i < n
          ensures Asn(file, i) != 0 && BlobInFile(file, i) && (i > 0 ==> Asn(file, i - 1) < Asn(file, i))
        {
          EntryFineIff(file, i);
        }
      }
    }
  }

  lemma EntryFineIff(file: seq<byte>, i: nat)
    requires HasIndex(file) && i < Count(file)
    ensures EntryFine(file, Count(file), i)
       <==> Asn(file, i) != 0 && BlobInFile(file, i) && (i > 0 ==> Asn(file, i - 1) < Asn(file, i))
  {
    hide FromLittleEndian;
  }

  predicate EntryFine(file: seq<byte>, count: nat, i: nat)
    requires i < count && 16 + 16 * count <= |file|
  {
    var at := 16 + 16 * i;
    && Word(file, at, 4) != 0
    && (i > 0 ==> Word(file, at - 16, 4) < Word(file, at, 4))
    && 16 + 16 * count <= Word(file, at + 4, 8)
    && Word(file, at + 4, 8) + 5 * Word(file, at + 12, 2) + 17 * Word(file, at + 14, 2) <= |file|
  }

  /** What a lookup gives of entry `i` of any file that can be opened: one prefix for each record, with no
      length if the record's is too large. */
  lemma FoundLayout(file: seq<byte>, i: nat, k: nat)
    requires WellFormed(file) && i < Count(file)
    ensures var at, n4, n6 := 16 + 16 * i, |Found(file, i).0|, |Found(file, i).1|;
            && at + 16 <= |file| && n4 == Word(file, at + 12, 2) && n6 == Word(file, at + 14, 2)
            && var from := Word(file, at + 4, 8);
               (k < n4 ==> RecordAt(file, from + 5 * k, 4, Found(file, i).0[k]))
               && (k < n6 ==> RecordAt(file, from + 5 * n4 + 17 * k, 16, Found(file, i).1[k]))
  {
    hide FromLittleEndian, ReadRecords, PrefixIn;
    assert BlobInFile(file, i);
    var n4, n6 := V4Count(file, i), V6Count(file, i);
    var start, len := BlobStart(file, i), BlobLength(file, i);
    assert Found(file, i).0 == ReadRecords(file[start..start + len], n4, 5);
    assert Found(file, i).1 == ReadRecords(file[start..start + len][5 * n4..], n6, 17);
    if k < n4 { RecordInFile(file, start, len, 0, n4, 5, k); }
    if k < n6 { RecordInFile(file, start, len, 5 * n4, n6, 17, k); }
  }

  /** The bytes at a place are those of a prefix: an address of `size` bytes, then the length. */
  predicate RecordAt(file: seq<byte>, at: nat, size: nat, p: Prefix) {
    at + size < |file| && p == PrefixIn(file[at..at + size], file[at + size], 8 * size)
  }

  lemma RecordInFile(file: seq<byte>, start: nat, len: nat, skip: nat, n: nat, w: nat, k: nat)
    requires w > 0 && start + len <= |file| && skip + n * w <= len && k < n
    ensures RecordAt(file, start + skip + w * k, w - 1, ReadRecords(file[start..start + len][skip..], n, w)[k])
  {
    hide ReadRecords, PrefixIn;
    var rest, from := file[start..start + len][skip..], start + skip;
    assert w * k == k * w;
    RecordsAre(rest, n, w, k, w * k);
    ByteInSlice(file, start, len, skip, w * k + w - 1);
    SliceInSlice(file, start, len, skip, w * k, w - 1);
  }

  lemma ByteInSlice<T>(s: seq<T>, start: nat, len: nat, skip: nat, j: nat)
    requires start + len <= |s| && skip + j < len
    ensures s[start..start + len][skip..][j] == s[start + skip + j]
  {
  }

  lemma SliceInSlice<T>(s: seq<T>, start: nat, len: nat, skip: nat, j: nat, n: nat)
    requires start + len <= |s| && skip + j + n <= len
    ensures s[start..start + len][skip..][j..j + n] == s[start + skip + j..start + skip + j + n]
  {
    var a, b := s[start..start + len][skip..][j..j + n], s[start + skip + j..start + skip + j + n];
    assert |a| == |b| && forall k | 0 <= k < n :: a[k] == b[k];
  }

  function PrefixIn(addr: seq<byte>, bits: byte, most: nat): Prefix {
    Prefix(addr, if bits <= most then bits else -1)
  }

  lemma {:induction false} RecordsAre(buf: seq<byte>, n: nat, w: nat, k: nat, at: nat)
    requires w > 0 && n * w <= |buf| && k < n && at == k * w
    ensures at + w <= n * w
    ensures ReadRecords(buf, n, w)[k] == PrefixIn(buf[at..at + w - 1], buf[at + w - 1], 8 * (w - 1))
  {
    assert (n - 1) * w + w == n * w;
    if k < n - 1 {
      RecordsAre(buf, n - 1, w, k, at);
    }
  }
}
