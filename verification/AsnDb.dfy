/** Opening a database file and looking up an AS number in it. */
module AsnDb {
  import opened Wrappers
  import opened AsnFormat
  import opened Bytes
  import AsnWriter

  // ---------------------------------------------------------------- the file

  function Field(file: seq<byte>, at: nat, width: nat): nat
    requires at + width <= |file|
  {
    FromLittleEndian(file[at..at + width])
  }

  function Count(file: seq<byte>): nat
    requires |file| >= HEADER_LEN
  {
    Field(file, 8, 4)
  }

  predicate HasIndex(file: seq<byte>) {
    && |file| >= HEADER_LEN
    && file[..8] == MAGIC
    && IndexEnd(Count(file)) <= |file|
  }

  function EntryAt(i: nat): nat {
    HEADER_LEN + ENTRY_LEN * i
  }

  function Asn(file: seq<byte>, i: nat): nat
    requires EntryAt(i) + ENTRY_LEN <= |file|
  {
    Field(file, EntryAt(i), 4)
  }

  function BlobStart(file: seq<byte>, i: nat): nat
    requires EntryAt(i) + ENTRY_LEN <= |file|
  {
    Field(file, EntryAt(i) + 4, 8)
  }

  function V4Count(file: seq<byte>, i: nat): nat
    requires EntryAt(i) + ENTRY_LEN <= |file|
  {
    Field(file, EntryAt(i) + 12, 2)
  }

  function V6Count(file: seq<byte>, i: nat): nat
    requires EntryAt(i) + ENTRY_LEN <= |file|
  {
    Field(file, EntryAt(i) + 14, 2)
  }

  function BlobLength(file: seq<byte>, i: nat): nat
    requires EntryAt(i) + ENTRY_LEN <= |file|
  {
    V4Count(file, i) * V4_RECORD + V6Count(file, i) * V6_RECORD
  }

  /** The blob of entry `i` lies between the end of the index and the end of the file. */
  predicate BlobInFile(file: seq<byte>, i: nat)
    requires HasIndex(file) && i < Count(file)
  {
    IndexEnd(Count(file)) <= BlobStart(file, i) && BlobStart(file, i) + BlobLength(file, i) <= |file|
  }

  /** The files a database can be opened from. */
  predicate WellFormed(file: seq<byte>) {
    && HasIndex(file)
    && (forall i: nat | i < Count(file) :: Asn(file, i) != 0 && BlobInFile(file, i))
    && (forall i: nat | 0 < i < Count(file) :: Asn(file, i - 1) < Asn(file, i))
  }

  lemma {:induction false} AsnsIncrease(file: seq<byte>, i: nat, j: nat)
    requires WellFormed(file) && i < j < Count(file)
    ensures Asn(file, i) < Asn(file, j)
    decreases j
  {
    assert Asn(file, j - 1) < Asn(file, j);
    if i < j - 1 { AsnsIncrease(file, i, j - 1); }
  }

  lemma AsnsAround(file: seq<byte>, m: nat)
    requires WellFormed(file) && m < Count(file)
    ensures forall i: nat | i < m :: Asn(file, i) < Asn(file, m)
    ensures forall i: nat | m < i < Count(file) :: Asn(file, m) < Asn(file, i)
  {
    forall i: nat | i < m ensures Asn(file, i) < Asn(file, m) { AsnsIncrease(file, i, m); }
    forall i: nat | m < i < Count(file) ensures Asn(file, m) < Asn(file, i) { AsnsIncrease(file, m, i); }
  }

  // ---------------------------------------------------------------- lookups

  /** `n` records of `width` bytes each: an address, then its length. */
  function ReadRecords(buf: seq<byte>, n: nat, width: nat): (ps: seq<Prefix>)
    requires width > 0 && n * width <= |buf|
    ensures |ps| == n
  {
    if n == 0 then [] else
    assert (n - 1) * width + width == n * width;
    var at := (n - 1) * width;
    ReadRecords(buf, n - 1, width) + [PrefixFrom(buf[at..at + width - 1], buf[at + width - 1])]
  }

  /** The prefixes that entry `i` points at. */
  function Found(file: seq<byte>, i: nat): (seq<Prefix>, seq<Prefix>)
    requires WellFormed(file) && i < Count(file)
  {
    assert BlobInFile(file, i);
    var n4, n6 := V4Count(file, i), V6Count(file, i);
    var blob := file[BlobStart(file, i)..BlobStart(file, i) + BlobLength(file, i)];
    (ReadRecords(blob, n4, V4_RECORD), ReadRecords(blob[n4 * V4_RECORD..], n6, V6_RECORD))
  }

  /** Looking at the entries one after the other. */
  function Scan(file: seq<byte>, asn: uint32, from: nat): (seq<Prefix>, seq<Prefix>)
    requires WellFormed(file) && from <= Count(file)
    decreases Count(file) - from
  {
    if from == Count(file) then ([], [])
    else if Asn(file, from) == asn then Found(file, from)
    else Scan(file, asn, from + 1)
  }

  lemma {:induction false} ScanFinds(file: seq<byte>, asn: uint32, from: nat, i: nat)
    requires WellFormed(file) && from <= i < Count(file) && Asn(file, i) == asn
    ensures Scan(file, asn, from) == Found(file, i)
    decreases i - from
  {
    if from < i {
      AsnsIncrease(file, from, i);
      ScanFinds(file, asn, from + 1, i);
    }
  }

  lemma {:induction false} ScanMisses(file: seq<byte>, asn: uint32, from: nat)
    requires WellFormed(file) && from <= Count(file)
    requires forall i: nat | from <= i < Count(file) :: Asn(file, i) != asn
    ensures Scan(file, asn, from) == ([], [])
    decreases Count(file) - from
  {
    if from < Count(file) { ScanMisses(file, asn, from + 1); }
  }

  // ---------------------------------------------------------------- the handle

  datatype DB = DB(file: seq<byte>, count: uint32)

  /** Opens a database file; `size` is what `Stat` reports and fits an int64. */
  method Open(file: seq<byte>) returns (r: Result<DB, string>)
    requires |file| < TWO63
    ensures r.Ok? <==> WellFormed(file)
    ensures r.Ok? ==> r.value.file == file && r.value.count == Count(file)
  {
    Pow256Values();
    if |file| < HEADER_LEN {
      return Err("read header");
    }
    if file[..8] != MAGIC {
      return Err("invalid asn database magic");
    }
    FromLittleEndianBound(file[8..12]);
    var count: uint32 := FromLittleEndian(file[8..12]);
    var indexEnd := Uint64(HEADER_LEN + count * ENTRY_LEN);
    if indexEnd > |file| {
      return Err("asn database index is truncated");
    }
    var fine := CheckIndex(file, count);
    if !fine {
      return Err("asn database index is corrupt");
    }
    return Ok(DB(file, count));
  }

  /** The loop of `Open`: AS numbers must increase from above zero, blobs must lie in the file. */
  method CheckIndex(file: seq<byte>, count: uint32) returns (fine: bool)
    requires HasIndex(file) && count == Count(file)
    ensures fine <==> WellFormed(file)
  {
    var indexEnd := IndexEnd(count);
    var previous := 0;
    for i := 0 to count
      invariant forall k: nat | k < i :: Asn(file, k) != 0 && BlobInFile(file, k)
      invariant forall k: nat | 0 < k < i :: Asn(file, k - 1) < Asn(file, k)
      invariant i > 0 ==> previous == Asn(file, i - 1)
    {
      var asn, off, length := Asn(file, i), BlobStart(file, i), BlobLength(file, i);
      if asn == 0 || (i > 0 && asn <= previous) || off < indexEnd || off > |file| || length > |file| - off {
        return false;
      }
      previous := asn;
    }
    return true;
  }

  /** Binary search over the index bytes.  The answer is that of the linear scan. */
  method PrefixesByASN(db: DB, asn: uint32) returns (ipv4: seq<Prefix>, ipv6: seq<Prefix>)
    requires WellFormed(db.file) && db.count == Count(db.file) && |db.file| < TWO63
    ensures (ipv4, ipv6) == Scan(db.file, asn, 0)
  {
    hide FromLittleEndian, Found, Scan;
    if db.count == 0 {
      ScanMisses(db.file, asn, 0);
      return [], [];
    }
    var lo: uint32, hi: uint32 := 0, db.count;
    while lo < hi
      invariant lo <= hi <= db.count
      invariant forall i: nat | i < lo :: Asn(db.file, i) < asn
      invariant forall i: nat | hi <= i < db.count :: asn < Asn(db.file, i)
      decreases hi - lo
    {
      var mid: uint32 := lo + (hi - lo) / 2;
      var cur := Asn(db.file, mid);
      AsnsAround(db.file, mid);
      if cur < asn {
        lo := mid + 1;
      } else if cur > asn {
        hi := mid;
      } else {
        ipv4, ipv6 := ReadFound(db, mid);
        ScanFinds(db.file, asn, 0, mid);
        return;
      }
    }
    ScanMisses(db.file, asn, 0);
    return [], [];
  }

  /** Reads the blob that index entry `i` points at. */
  method ReadFound(db: DB, i: nat) returns (ipv4: seq<Prefix>, ipv6: seq<Prefix>)
    requires WellFormed(db.file) && db.count == Count(db.file) && i < db.count
    ensures (ipv4, ipv6) == Found(db.file, i)
  {
    assert BlobInFile(db.file, i);
    ipv4, ipv6 := ReadBlob(db, BlobStart(db.file, i), V4Count(db.file, i), V6Count(db.file, i));
  }

  lemma ReadNext(buf: seq<byte>, i: nat, width: nat, at: nat)
    requires width > 0 && at == i * width && at + width <= |buf|
    ensures (i + 1) * width <= |buf|
    ensures ReadRecords(buf, i + 1, width)
         == ReadRecords(buf, i, width) + [PrefixFrom(buf[at..at + width - 1], buf[at + width - 1])]
  {
    assert (i + 1) * width == at + width;
  }

  /** Reads the records of one blob, which must lie between the index and the end of the file. */
  method ReadBlob(db: DB, off: nat, v4n: nat, v6n: nat) returns (ipv4: seq<Prefix>, ipv6: seq<Prefix>)
    requires IndexEnd(db.count) <= off && off + v4n * V4_RECORD + v6n * V6_RECORD <= |db.file|
    ensures var blob := db.file[off..off + v4n * V4_RECORD + v6n * V6_RECORD];
            && ipv4 == ReadRecords(blob, v4n, V4_RECORD)
            && ipv6 == ReadRecords(blob[v4n * V4_RECORD..], v6n, V6_RECORD)
  {
    hide ReadRecords, PrefixFrom;
    var buf := db.file[off..off + v4n * V4_RECORD + v6n * V6_RECORD];
    var pos := 0;
    assert ReadRecords(buf, 0, V4_RECORD) == [];
    ipv4 := [];
    for i := 0 to v4n
      invariant pos == i * V4_RECORD && ipv4 == ReadRecords(buf, i, V4_RECORD)
    {
      ReadNext(buf, i, 5, pos);
      ipv4 := ipv4 + [PrefixFrom(buf[pos..pos + 4], buf[pos + 4])];
      pos := pos + V4_RECORD;
    }
    ipv6 := [];
    ghost var rest := buf[v4n * V4_RECORD..];
    assert ReadRecords(rest, 0, V6_RECORD) == [];
    for i := 0 to v6n
      invariant pos == v4n * V4_RECORD + i * V6_RECORD && ipv6 == ReadRecords(rest, i, V6_RECORD)
    {
      assert rest[17 * i..17 * i + 16] == buf[pos..pos + 16];
      ReadNext(rest, i, 17, 17 * i);
      ipv6 := ipv6 + [PrefixFrom(buf[pos..pos + 16], buf[pos + 16])];
      pos := pos + V6_RECORD;
    }
  }

  // ---------------------------------------------------------------- what Write writes

  lemma SubSlice<T>(s: seq<T>, at: nat, len: nat, lo: nat, hi: nat)
    requires at + len <= |s| && lo <= hi <= len
    ensures s[at + lo..at + hi] == s[at..at + len][lo..hi]
  {
    var a, b := s[at + lo..at + hi], s[at..at + len][lo..hi];
    assert forall k | 0 <= k < |a| :: a[k] == b[k];
  }

  /** Where the pieces of a header, an index and blobs are in the file they make up. */
  lemma PartInFile(h: seq<byte>, parts: seq<seq<byte>>, data: seq<byte>, i: nat)
    requires |h| == HEADER_LEN && (forall p <- parts :: |p| == ENTRY_LEN) && i < |parts|
    ensures var file := h + Concat(parts) + data;
            EntryAt(i) + ENTRY_LEN <= |file| && file[EntryAt(i)..EntryAt(i) + ENTRY_LEN] == parts[i]
  {
    ConcatEvenAt(parts, ENTRY_LEN, i);
    var index := Concat(parts);
    var file := h + index + data;
    assert file[HEADER_LEN..HEADER_LEN + |index|] == index;
    SubSlice(file, HEADER_LEN, |index|, 16 * i, 16 * i + 16);
  }

  lemma BlobInPlace(h: seq<byte>, index: seq<byte>, blobs: seq<seq<byte>>, i: nat)
    requires i < |blobs|
    ensures var file := h + index + Concat(blobs);
            var start := |h| + |index| + |Concat(blobs[..i])|;
            && start + |blobs[i]| == |h| + |index| + |Concat(blobs[..i + 1])| <= |file|
            && file[start..start + |blobs[i]|] == blobs[i]
  {
    ConcatAt(blobs, i);
    ConcatNext(blobs, i);
    var data, front := Concat(blobs), h + index;
    var at, len := |Concat(blobs[..i])|, |blobs[i]|;
    var file := front + data;
    assert file[|front|..|front| + |data|] == data;
    SubSlice(file, |front|, |data|, at, at + len);
  }

  /** The fields of the index entry at `i`, given the bytes of the entry. */
  lemma FieldsOf(file: seq<byte>, i: nat, b: seq<byte>)
    requires EntryAt(i) + ENTRY_LEN <= |file| && file[EntryAt(i)..EntryAt(i) + ENTRY_LEN] == b
    ensures Asn(file, i) == FromLittleEndian(b[0..4]) && BlobStart(file, i) == FromLittleEndian(b[4..12])
    ensures V4Count(file, i) == FromLittleEndian(b[12..14]) && V6Count(file, i) == FromLittleEndian(b[14..16])
  {
    SubSlice(file, EntryAt(i), ENTRY_LEN, 0, 4);
    SubSlice(file, EntryAt(i), ENTRY_LEN, 4, 12);
    SubSlice(file, EntryAt(i), ENTRY_LEN, 12, 14);
    SubSlice(file, EntryAt(i), ENTRY_LEN, 14, 16);
  }

  lemma EntryFields(e: Entry, off: nat)
    requires |Normalize(e.ipv4, true)| <= 65535 && |Normalize(e.ipv6, false)| <= 65535 && off < TWO64
    ensures var b := IndexEntry(e, off);
            && FromLittleEndian(b[0..4]) == e.asn && FromLittleEndian(b[4..12]) == off
            && FromLittleEndian(b[12..14]) == |Normalize(e.ipv4, true)|
            && FromLittleEndian(b[14..16]) == |Normalize(e.ipv6, false)|
  {
    Pow256Values();
    LittleEndianRoundTrip(e.asn, 4);
    LittleEndianRoundTrip(off, 8);
    LittleEndianRoundTrip(|Normalize(e.ipv4, true)|, 2);
    LittleEndianRoundTrip(|Normalize(e.ipv6, false)|, 2);
    var asn, at := LittleEndian(e.asn, 4), LittleEndian(off, 8);
    var n4, n6 := LittleEndian(|Normalize(e.ipv4, true)|, 2), LittleEndian(|Normalize(e.ipv6, false)|, 2);
    assert IndexEntry(e, off) == asn + at + n4 + n6;
    hide IndexEntry, LittleEndian, FromLittleEndian, Normalize;
    FourParts(asn, at, n4, n6);
  }

  lemma FourParts(a: seq<byte>, b: seq<byte>, c: seq<byte>, d: seq<byte>)
    requires |a| == 4 && |b| == 8 && |c| == 2 && |d| == 2
    ensures var all := a + b + c + d; all[0..4] == a && all[4..12] == b && all[12..14] == c && all[14..16] == d
  {
  }

  /** The entries `Write` serializes, in the order it does. */
  ghost predicate Serializable(es: seq<Entry>) {
    && Increasing(es)
    && |es| < TWO32
    && (forall e <- es :: e.asn != 0)
    && (forall e <- es :: |Normalize(e.ipv4, true)| <= 65535 && |Normalize(e.ipv6, false)| <= 65535)
  }

  lemma SortedSerializable(entries: seq<Entry>)
    requires Acceptable(entries)
    ensures var es := AsnWriter.SortByAsn(entries);
            Serializable(es) && |es| == |entries| && forall e :: e in es <==> e in entries
  {
    var es := AsnWriter.SortByAsn(entries);
    AsnWriter.SortKeeps(entries);
    assert Increasing(es);
    if es != [] { AsnAbovePosition(es, |es| - 1); }
  }

  lemma IndexEntriesEven(es: seq<Entry>, base: nat)
    ensures forall p <- IndexEntries(es, base) :: |p| == ENTRY_LEN
  {
  }

  lemma HeaderOf(count: uint32, index: seq<byte>, data: seq<byte>)
    requires |index| == ENTRY_LEN * count
    ensures var file := Header(count) + index + data;
            HasIndex(file) && Count(file) == count && |file| == IndexEnd(count) + |data|
  {
    Pow256Values();
    LittleEndianRoundTrip(count, 4);
    var file := Header(count) + index + data;
    assert file[..8] == MAGIC && file[8..12] == LittleEndian(count, 4);
  }

  lemma EncodedHeader(es: seq<Entry>)
    requires Serializable(es)
    ensures HasIndex(Encode(es)) && Count(Encode(es)) == |es|
    ensures |Encode(es)| == IndexEnd(|es|) + |Concat(Blobs(es))| < TWO53
  {
    hide Blob, IndexEntry, LittleEndian, Concat;
    IndexEntriesEven(es, IndexEnd(|es|));
    ConcatEven(IndexEntries(es, IndexEnd(|es|)), ENTRY_LEN);
    HeaderOf(|es|, Concat(IndexEntries(es, IndexEnd(|es|))), Concat(Blobs(es)));
    DataBound(es, |es|);
    assert Blobs(es)[..|es|] == Blobs(es);
  }

  lemma EncodedEntry(es: seq<Entry>, i: nat)
    requires Serializable(es) && i < |es|
    ensures EntryAt(i) + ENTRY_LEN <= |Encode(es)|
    ensures Asn(Encode(es), i) == es[i].asn
    ensures BlobStart(Encode(es), i) == Offset(Blobs(es), IndexEnd(|es|), i)
    ensures V4Count(Encode(es), i) == |Normalize(es[i].ipv4, true)|
    ensures V6Count(Encode(es), i) == |Normalize(es[i].ipv6, false)|
  {
    assert es[i] in es;
    var base := IndexEnd(|es|);
    var off := Offset(Blobs(es), base, i);
    DataBound(es, i);
    IndexEntriesEven(es, base);
    PartInFile(Header(|es|), IndexEntries(es, base), Concat(Blobs(es)), i);
    FieldsOf(Encode(es), i, IndexEntry(es[i], off));
    EntryFields(es[i], off);
  }

  lemma EncodedBlob(es: seq<Entry>, i: nat)
    requires i < |es|
    ensures var start := Offset(Blobs(es), IndexEnd(|es|), i);
            && start + |Blob(es[i])| == Offset(Blobs(es), IndexEnd(|es|), i + 1) <= |Encode(es)|
            && Encode(es)[start..start + |Blob(es[i])|] == Blob(es[i])
  {
    hide Blob, Concat, IndexEntry;
    var index := Concat(IndexEntries(es, IndexEnd(|es|)));
    IndexEntriesEven(es, IndexEnd(|es|));
    ConcatEven(IndexEntries(es, IndexEnd(|es|)), ENTRY_LEN);
    assert Blobs(es)[i] == Blob(es[i]);
    BlobInPlace(Header(|es|), index, Blobs(es), i);
    assert Encode(es) == Header(|es|) + index + Concat(Blobs(es));
  }

  /** Where entry `i` says its blob is, and that it is there. */
  lemma EncodedFound(es: seq<Entry>, i: nat)
    requires Serializable(es) && i < |es|
    ensures EntryAt(i) + ENTRY_LEN <= |Encode(es)|
    ensures BlobLength(Encode(es), i) == |Blob(es[i])|
    ensures IndexEnd(|es|) <= BlobStart(Encode(es), i)
    ensures BlobStart(Encode(es), i) + BlobLength(Encode(es), i) == Offset(Blobs(es), IndexEnd(|es|), i + 1)
            <= |Encode(es)|
    ensures Encode(es)[BlobStart(Encode(es), i)..BlobStart(Encode(es), i) + |Blob(es[i])|] == Blob(es[i])
  {
    hide Encode, Blobs, Blob, IndexEntry, Normalize, Serializable;
    EncodedEntry(es, i);
    EncodedBlob(es, i);
    BlobSize(es[i]);
  }

  /** Each blob starts where the one before ends, the first after the index, and the last ends the
      file; no offset needs more than 53 bits. */
  lemma BlobsTileFile(entries: seq<Entry>)
    requires Acceptable(entries)
    ensures var file := Encode(AsnWriter.SortByAsn(entries));
            && HasIndex(file) && Count(file) == |entries| < TWO32 && |file| < TWO53
            && (forall i: nat | i < |entries| :: BlobInFile(file, i))
            && (forall i: nat | i < |entries| :: BlobEnd(file, i) == BlobEdge(file, i + 1))
            && BlobEdge(file, 0) == IndexEnd(|entries|)
  {
    hide Encode, AsnWriter.SortByAsn;
    SortedSerializable(entries);
    EncodedTiles(AsnWriter.SortByAsn(entries));
  }

  lemma EncodedTiles(es: seq<Entry>)
    requires Serializable(es)
    ensures HasIndex(Encode(es)) && Count(Encode(es)) == |es| && |Encode(es)| < TWO53
    ensures forall i: nat | i < |es| ::
              BlobInFile(Encode(es), i) && BlobEnd(Encode(es), i) == BlobEdge(Encode(es), i + 1)
    ensures BlobEdge(Encode(es), 0) == IndexEnd(|es|)
  {
    hide Blob, Concat, IndexEntry, Normalize, Encode;
    EncodedHeader(es);
    forall i: nat | i < |es|
      ensures BlobInFile(Encode(es), i) && BlobEnd(Encode(es), i) == BlobEdge(Encode(es), i + 1)
    {
      EncodedFound(es, i);
      if i + 1 < |es| { EncodedEntry(es, i + 1); }
      else { assert Blobs(es)[..i + 1] == Blobs(es); }
    }
    FirstEdge(es);
  }

  lemma FirstEdge(es: seq<Entry>)
    requires Serializable(es) && HasIndex(Encode(es)) && Count(Encode(es)) == |es|
    requires |Encode(es)| == IndexEnd(|es|) + |Concat(Blobs(es))|
    ensures BlobEdge(Encode(es), 0) == IndexEnd(|es|)
  {
    hide Encode;
    assert Concat(Blobs(es)[..0]) == [];
    if es != [] { EncodedEntry(es, 0); } else { assert Blobs(es) == Blobs(es)[..0]; }
  }

  function BlobEnd(file: seq<byte>, i: nat): nat
    requires EntryAt(i) + ENTRY_LEN <= |file|
  {
    BlobStart(file, i) + BlobLength(file, i)
  }

  /** Where blob `i` should start, and where the last one should end. */
  function BlobEdge(file: seq<byte>, i: nat): nat
    requires HasIndex(file) && i <= Count(file)
  {
    if i == Count(file) then |file| else BlobStart(file, i)
  }

  lemma EncodedWellFormed(es: seq<Entry>)
    requires Serializable(es)
    ensures WellFormed(Encode(es)) && Count(Encode(es)) == |es| && |Encode(es)| < TWO53
    ensures forall i: nat | i < |es| :: Asn(Encode(es), i) == es[i].asn
  {
    EncodedHeader(es);
    forall i: nat | i < |es| ensures Asn(Encode(es), i) == es[i].asn != 0 && BlobInFile(Encode(es), i) {
      EncodedEntry(es, i);
      EncodedFound(es, i);
      assert es[i] in es;
    }
  }

  /** Whatever `Write` accepts can be opened, and every lookup returns the masked forms of exactly the
      valid prefixes of each family, in the order given, or nothing for an AS number that was not
      listed. */
  lemma WriteOpenLookup(entries: seq<Entry>, asn: uint32)
    requires Acceptable(entries)
    ensures var file := Encode(AsnWriter.SortByAsn(entries));
            && |file| < TWO63 && WellFormed(file)
            && (forall e <- entries :: e.asn == asn ==>
                  && Selects(e.ipv4, true, Scan(file, asn, 0).0)
                  && Selects(e.ipv6, false, Scan(file, asn, 0).1))
            && ((forall e <- entries :: e.asn != asn) ==> Scan(file, asn, 0) == ([], []))
  {
    hide Blob, Concat, IndexEntry, Normalize, Encode, Scan, Found, Selects;
    var es := AsnWriter.SortByAsn(entries);
    SortedSerializable(entries);
    EncodedWellFormed(es);
    forall e | e in entries && e.asn == asn
      ensures Selects(e.ipv4, true, Scan(Encode(es), asn, 0).0) && Selects(e.ipv6, false, Scan(Encode(es), asn, 0).1)
    {
      var i :| 0 <= i < |es| && es[i] == e;
      ScanFinds(Encode(es), asn, 0, i);
      FoundIsEntry(es, i);
      NormalizeCount(e.ipv4, true);
      NormalizeCount(e.ipv6, false);
    }
    if forall e <- entries :: e.asn != asn {
      forall i: nat | i < |es| ensures Asn(Encode(es), i) != asn { assert es[i] in entries; }
      ScanMisses(Encode(es), asn, 0);
    }
  }

  lemma RecordBack(buf: seq<byte>, at: nat, p: Prefix)
    requires p.IsValid() && at + |p.addr| + 1 <= |buf| && buf[at..at + |p.addr| + 1] == Record(p)
    ensures PrefixFrom(buf[at..at + |p.addr|], buf[at + |p.addr|]) == p
  {
    SubSlice(buf, at, |p.addr| + 1, 0, |p.addr|);
    assert buf[at + |p.addr|] == buf[at..at + |p.addr| + 1][|p.addr|];
  }

  lemma RecordReadsBack(buf: seq<byte>, ps: seq<Prefix>, k: nat, v4: bool, w: nat)
    requires k < |ps| && forall p <- ps :: p.IsValid() && p.Is4() == v4
    requires w == if v4 then V4_RECORD else V6_RECORD
    requires Concat(Records(ps)) <= buf
    ensures k * w + w <= |buf|
    ensures PrefixFrom(buf[k * w..k * w + w - 1], buf[k * w + w - 1]) == ps[k]
  {
    hide Concat;
    RecordsEven(ps, v4);
    ConcatEvenAt(Records(ps), w, k);
    assert ps[k] in ps && Records(ps)[k] == Record(ps[k]);
    assert w * k == k * w;
    PrefixSlice(Concat(Records(ps)), buf, k * w, k * w + w);
    RecordBack(buf, k * w, ps[k]);
  }

  lemma {:induction false} ReadBack(buf: seq<byte>, ps: seq<Prefix>, n: nat, v4: bool, w: nat)
    requires n <= |ps| && forall p <- ps :: p.IsValid() && p.Is4() == v4
    requires w == if v4 then V4_RECORD else V6_RECORD
    requires Concat(Records(ps)) <= buf
    ensures n * w <= |buf| && ReadRecords(buf, n, w) == ps[..n]
  {
    if n > 0 {
      hide Concat, Records, ReadRecords;
      ReadBack(buf, ps, n - 1, v4, w);
      RecordReadsBack(buf, ps, n - 1, v4, w);
      assert n * w == (n - 1) * w + w;
      ReadOneMore(buf, ps, n, w, (n - 1) * w);
    }
  }

  lemma ReadOneMore(buf: seq<byte>, ps: seq<Prefix>, n: nat, w: nat, at: nat)
    requires 0 < n <= |ps| && w > 0 && at == (n - 1) * w && n * w == at + w <= |buf|
    requires ReadRecords(buf, n - 1, w) == ps[..n - 1]
    requires PrefixFrom(buf[at..at + w - 1], buf[at + w - 1]) == ps[n - 1]
    ensures ReadRecords(buf, n, w) == ps[..n]
  {
    assert ReadRecords(buf, n, w)
        == ReadRecords(buf, n - 1, w) + [PrefixFrom(buf[at..at + w - 1], buf[at + w - 1])];
    assert ps[..n] == ps[..n - 1] + [ps[n - 1]];
  }

  lemma PrefixSlice<T>(a: seq<T>, b: seq<T>, lo: nat, hi: nat)
    requires a <= b && lo <= hi <= |a|
    ensures b[lo..hi] == a[lo..hi]
  {
  }

  lemma FoundIsEntry(es: seq<Entry>, i: nat)
    requires Serializable(es) && i < |es| && WellFormed(Encode(es)) && Count(Encode(es)) == |es|
    ensures Found(Encode(es), i) == (Normalize(es[i].ipv4, true), Normalize(es[i].ipv6, false))
  {
    hide Blob, Concat, IndexEntry, Found, Normalize, Encode;
    EncodedEntry(es, i);
    EncodedFound(es, i);
    FoundOf(Encode(es), i, es[i]);
  }

  lemma FoundOf(file: seq<byte>, i: nat, e: Entry)
    requires WellFormed(file) && i < Count(file)
    requires V4Count(file, i) == |Normalize(e.ipv4, true)| && V6Count(file, i) == |Normalize(e.ipv6, false)|
    requires BlobEnd(file, i) <= |file| && file[BlobStart(file, i)..BlobEnd(file, i)] == Blob(e)
    ensures Found(file, i) == (Normalize(e.ipv4, true), Normalize(e.ipv6, false))
  {
    hide Blob, Normalize, ReadRecords;
    BlobReadsBack(e);
  }

  lemma BlobReadsBack(e: Entry)
    ensures var n4, n6 := |Normalize(e.ipv4, true)|, |Normalize(e.ipv6, false)|;
            && n4 * V4_RECORD + n6 * V6_RECORD == |Blob(e)|
            && ReadRecords(Blob(e), n4, V4_RECORD) == Normalize(e.ipv4, true)
            && ReadRecords(Blob(e)[n4 * V4_RECORD..], n6, V6_RECORD) == Normalize(e.ipv6, false)
  {
    var v4, v6 := Normalize(e.ipv4, true), Normalize(e.ipv6, false);
    var r4, r6 := Concat(Records(v4)), Concat(Records(v6));
    RecordsEven(v4, true);
    RecordsEven(v6, false);
    ConcatEven(Records(v4), V4_RECORD);
    ConcatEven(Records(v6), V6_RECORD);
    ReadBack(r4 + r6, v4, |v4|, true, V4_RECORD);
    assert (r4 + r6)[|r4|..] == r6;
    ReadBack(r6, v6, |v6|, false, V6_RECORD);
  }
}
