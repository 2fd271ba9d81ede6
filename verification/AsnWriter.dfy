/** Serialization of AS number entries into the database format. */
module AsnWriter {
  import opened AsnFormat
  import opened Bytes

  // ---------------------------------------------------------------- sorting

  function Insert(e: Entry, es: seq<Entry>): (r: seq<Entry>)
    requires Sorted(es)
    ensures |r| == |es| + 1
    ensures forall x :: x in r <==> x in es || x == e
    ensures Sorted(r) && multiset(r) == multiset(es) + multiset{e}
  {
    if es == [] then [e] else
    var init, last := es[..|es| - 1], es[|es| - 1];
    assert es == init + [last];
    if last.asn <= e.asn then es + [e] else
    var r := Insert(e, init);
    assert forall i | 0 <= i < |r| :: r[i].asn <= last.asn by {
      forall i | 0 <= i < |r| ensures r[i].asn <= last.asn { assert r[i] in r; }
    }
    r + [last]
  }

  /** `sort.Slice` by AS number.  Where AS numbers repeat, their order does not matter to `Write`. */
  function SortByAsn(es: seq<Entry>): (r: seq<Entry>)
    ensures Sorted(r) && |r| == |es|
  {
    if es == [] then [] else Insert(es[|es| - 1], SortByAsn(es[..|es| - 1]))
  }

  predicate Lacks(es: seq<Entry>, asn: uint32) {
    forall e <- es :: e.asn != asn
  }

  lemma AppendDistinct(e: Entry, es: seq<Entry>)
    ensures Distinct(es + [e]) <==> Distinct(es) && Lacks(es, e.asn)
  {
    var r := es + [e];
    if Distinct(r) {
      forall i, j | 0 <= i < j < |es| ensures es[i].asn != es[j].asn { assert r[i].asn != r[j].asn; }
      forall x | x in es ensures x.asn != e.asn {
        var k :| 0 <= k < |es| && es[k] == x;
        assert r[k].asn != r[|es|].asn;
      }
    }
  }

  lemma {:induction false} InsertDistinct(e: Entry, es: seq<Entry>)
    requires Sorted(es)
    ensures Distinct(Insert(e, es)) <==> Distinct(es) && Lacks(es, e.asn)
  {
    if es != [] {
      var init, last := es[..|es| - 1], es[|es| - 1];
      assert es == init + [last];
      AppendDistinct(e, es);
      AppendDistinct(last, init);
      InsertDistinct(e, init);
      AppendDistinct(last, Insert(e, init));
    }
  }

  lemma SameLacks(es: seq<Entry>, fs: seq<Entry>, asn: uint32)
    requires forall x :: x in es <==> x in fs
    ensures Lacks(es, asn) <==> Lacks(fs, asn)
  {
  }

  /** Sorting changes neither the entries nor whether their AS numbers are distinct. */
  lemma {:induction false} SortKeeps(es: seq<Entry>)
    ensures multiset(SortByAsn(es)) == multiset(es)
    ensures forall x :: x in SortByAsn(es) <==> x in es
    ensures Distinct(SortByAsn(es)) <==> Distinct(es)
  {
    if es != [] {
      var n := |es| - 1;
      assert es == es[..n] + [es[n]];
      var rest := SortByAsn(es[..n]);
      SortKeeps(es[..n]);
      InsertDistinct(es[n], rest);
      AppendDistinct(es[n], es[..n]);
      SameLacks(rest, es[..n], es[n].asn);
    }
  }

  // ---------------------------------------------------------------- writing

  method NormalizePrefixes(prefixes: seq<Prefix>, wantV4: bool) returns (out: seq<Prefix>)
    ensures out == Normalize(prefixes, wantV4) && Selects(prefixes, wantV4, out)
  {
    hide Selects, WantedPlaces;
    out := [];
    for i := 0 to |prefixes|
      invariant out == Normalize(prefixes[..i], wantV4)
    {
      assert prefixes[..i + 1][..i] == prefixes[..i];
      var p := prefixes[i];
      if !p.IsValid() { continue; }
      p := p.Masked();
      if p.Is4() != wantV4 { continue; }
      out := out + [p];
    }
    assert prefixes[..|prefixes|] == prefixes;
    NormalizeCount(prefixes, wantV4);
  }

  method AppendRecords(data: seq<byte>, ps: seq<Prefix>) returns (out: seq<byte>)
    requires forall p <- ps :: p.IsValid()
    ensures out == data + Concat(Records(ps))
  {
    out := data;
    for i := 0 to |ps|
      invariant out == data + Concat(Records(ps)[..i])
    {
      ConcatNext(Records(ps), i);
      assert ps[i] in ps;
      out := out + ps[i].addr;
      var bits: byte := ps[i].bits;
      out := out + [bits];
    }
    assert Records(ps)[..|ps|] == Records(ps);
  }

  /** The entries looked at so far are fine. */
  ghost predicate PrefixFine(es: seq<Entry>, i: nat)
    requires i <= |es|
  {
    && Increasing(es[..i])
    && (forall e <- es[..i] :: e.asn != 0)
    && (forall e <- es[..i] :: |Normalize(e.ipv4, true)| <= 65535 && |Normalize(e.ipv6, false)| <= 65535)
  }

  /** No offset the loop computes wraps around, even when the count does. */
  lemma OffsetFits(es: seq<Entry>, i: nat, count: uint32)
    requires i <= |es| && PrefixFine(es, i)
    ensures i < TWO32 && Offset(Blobs(es), IndexEnd(count), i) < TWO53
  {
    if i > 0 { AsnAbovePosition(es[..i], i - 1); }
    BlobsTotal(es, i);
  }

  /** What the buffers hold after `i` entries. */
  ghost predicate Written(es: seq<Entry>, count: uint32, i: nat, index: seq<byte>, data: seq<byte>, dataOff: nat)
    requires i <= |es|
  {
    && index == Concat(IndexEntries(es, IndexEnd(count))[..i])
    && data == Concat(Blobs(es)[..i])
    && dataOff == Offset(Blobs(es), IndexEnd(count), i)
  }

  lemma WrittenFirst(es: seq<Entry>, count: uint32)
    ensures Written(es, count, 0, [], [], Uint64(HEADER_LEN + count * ENTRY_LEN))
  {
    assert Blobs(es)[..0] == [] && IndexEntries(es, IndexEnd(count))[..0] == [];
  }

  lemma WrittenNext(es: seq<Entry>, count: uint32, i: nat, index: seq<byte>, data: seq<byte>, dataOff: nat,
                    entry: seq<byte>, blob: seq<byte>)
    requires i < |es| && Written(es, count, i, index, data, dataOff) && PrefixFine(es, i + 1)
    requires entry == IndexEntry(es[i], dataOff) && blob == Blob(es[i])
    ensures Written(es, count, i + 1, index + entry, data + blob, Uint64(dataOff + |blob|))
  {
    ConcatNext(Blobs(es), i);
    ConcatNext(IndexEntries(es, IndexEnd(count)), i);
    OffsetFits(es, i + 1, count);
  }

  /** The index entry and the blob of one AS number.  Prefix counts are cut to 16 bits. */
  method WriteEntry(e: Entry, dataOff: nat) returns (fits: bool, entry: seq<byte>, blob: seq<byte>, size: nat)
    ensures fits <==> |Normalize(e.ipv4, true)| <= 65535 && |Normalize(e.ipv6, false)| <= 65535
    ensures fits ==> entry == IndexEntry(e, dataOff) && blob == Blob(e) && size == |blob|
  {
    hide Selects;
    var v4 := NormalizePrefixes(e.ipv4, true);
    var v6 := NormalizePrefixes(e.ipv6, false);
    if |v4| > 65535 || |v6| > 65535 {
      return false, [], [], 0;
    }
    entry := LittleEndian(e.asn, 4) + LittleEndian(dataOff, 8)
             + LittleEndian(Uint16(|v4|), 2) + LittleEndian(Uint16(|v6|), 2);
    blob := AppendRecords([], v4);
    blob := AppendRecords(blob, v6);
    BlobSize(e);
    return true, entry, blob, |v4| * V4_RECORD + |v6| * V6_RECORD;
  }

  /** The loop of `Write`: builds the index and the data, or stops at the first entry it refuses. */
  method WriteEntries(sorted: seq<Entry>, count: uint32)
    returns (ok: bool, index: seq<byte>, data: seq<byte>, ghost bad: nat)
    requires Sorted(sorted)
    ensures ok ==> PrefixFine(sorted, |sorted|)
    ensures ok ==> exists off :: Written(sorted, count, |sorted|, index, data, off)
    ensures !ok ==> bad < |sorted| && Refusable(sorted, bad) && forall i | 0 <= i < bad :: !Refusable(sorted, i)
  {
    hide PrefixFine, Written, Normalize, IndexEntry, Blob, Uint64;
    var dataOff: nat := Uint64(HEADER_LEN + count * ENTRY_LEN);
    index, data := [], [];
    var previous: uint32 := 0;
    WrittenFirst(sorted, count);
    FineFirst(sorted);
    for i := 0 to |sorted|
      invariant PrefixFine(sorted, i)
      invariant i > 0 ==> previous == sorted[i - 1].asn
      invariant Written(sorted, count, i, index, data, dataOff)
    {
      var e := sorted[i];
      if e.asn == 0 || (i > 0 && e.asn == previous) {
        FineBefore(sorted, i);
        return false, index, data, i;
      }
      previous := e.asn;
      var fits, entry, blob, size := WriteEntry(e, dataOff);
      if !fits {
        FineBefore(sorted, i);
        return false, index, data, i;
      }
      PrefixGrows(sorted, i);
      WrittenNext(sorted, count, i, index, data, dataOff, entry, blob);
      index := index + entry;
      data := data + blob;
      dataOff := Uint64(dataOff + size);
    }
    return true, index, data, 0;
  }

  lemma FineFirst(es: seq<Entry>)
    ensures PrefixFine(es, 0)
  {
  }

  lemma FineBefore(es: seq<Entry>, n: nat)
    requires n <= |es| && PrefixFine(es, n)
    ensures forall i | 0 <= i < n :: !Refusable(es, i)
  {
    forall i | 0 <= i < n ensures !Refusable(es, i) {
      assert es[..n][i] in es[..n];
      if i > 0 { assert es[..n][i - 1].asn < es[..n][i].asn; }
    }
  }

  /** Where the bytes go.  Unless it is sound, a write may fail after a beginning of its bytes. */
  class Output {
    var written: seq<byte>
    const sound: bool

    constructor (sound: bool)
      ensures written == [] && this.sound == sound
    {
      written := [];
      this.sound := sound;
    }

    method Put(p: seq<byte>) returns (failed: bool)
      modifies this
      ensures sound ==> !failed
      ensures if failed then old(written) <= written <= old(written) + p else written == old(written) + p
    {
      failed := *;
      failed := failed && !sound;
      var n: int := *;
      if failed && 0 <= n <= |p| {
        written := written + p[..n];
      } else if !failed {
        written := written + p;
      }
    }
  }

  datatype Outcome = Done | BadEntry | Broken

  /** All that is written for some entries: the database, or only its header if an entry is refused. */
  ghost function AllBytes(entries: seq<Entry>): seq<byte> {
    if Acceptable(entries) then Encode(SortByAsn(entries)) else Header(Uint32(|entries|))
  }

  /** Writes the database.  The count is cut to 32 bits and offsets to 64, as in the program. */
  method Write(w: Output, entries: seq<Entry>) returns (outcome: Outcome)
    modifies w
    ensures outcome.Done? ==> Acceptable(entries) && |entries| < TWO32
    ensures outcome.BadEntry? ==> !Acceptable(entries)
    ensures if outcome.Broken? then old(w.written) <= w.written <= old(w.written) + AllBytes(entries)
            else w.written == old(w.written) + AllBytes(entries)
    ensures w.sound ==> !outcome.Broken?
  {
    hide Acceptable, Encode, Header, PrefixFine, Written, SortByAsn, Refusable, LittleEndian, AllBytes, Uint32;
    ghost var start := w.written;
    var sorted := SortByAsn(entries);
    SortKeeps(entries);
    var count := Uint32(|sorted|);
    var header := MAGIC + LittleEndian(count, 4) + [0, 0, 0, 0];
    HeaderIs(count);
    HeaderFirst(entries);
    var failed := w.Put(header);
    if failed {
      PrefixOfMore(start, w.written, header, AllBytes(entries));
      return Broken;
    }
    var ok, index, data, bad := WriteEntries(sorted, count);
    if !ok {
      Refused(entries, sorted, bad);
      return BadEntry;
    }
    ghost var off :| Written(sorted, count, |sorted|, index, data, off);
    Finished(entries, sorted, count, index, data, off);
    TwoSteps(start, header, index, data);
    failed := PutBoth(w, index, data);
    return if failed then Broken else Done;
  }

  lemma PrefixOfMore<T>(start: seq<T>, now: seq<T>, part: seq<T>, all: seq<T>)
    requires start <= now <= start + part && part <= all
    ensures now <= start + all
  {
  }

  lemma TwoSteps<T>(start: seq<T>, a: seq<T>, b: seq<T>, c: seq<T>)
    ensures start + a + (b + c) == start + (a + b + c) && start <= start + a
  {
  }

  method PutBoth(w: Output, index: seq<byte>, data: seq<byte>) returns (failed: bool)
    modifies w
    ensures w.sound ==> !failed
    ensures if failed then old(w.written) <= w.written <= old(w.written) + (index + data)
            else w.written == old(w.written) + (index + data)
  {
    failed := w.Put(index);
    if failed {
      assert old(w.written) + (index + data) == old(w.written) + index + data;
      return;
    }
    failed := w.Put(data);
    assert old(w.written) + (index + data) == old(w.written) + index + data;
  }

  /** The header comes first in any case: the count of entries that are accepted is not cut. */
  lemma HeaderFirst(entries: seq<Entry>)
    ensures Header(Uint32(|entries|)) <= AllBytes(entries)
    ensures AllBytes(entries) == if Acceptable(entries) then Encode(SortByAsn(entries)) else Header(Uint32(|entries|))
  {
    hide Header, IndexEntries, Blobs, Concat, Normalize;
    if Acceptable(entries) {
      var es := SortByAsn(entries);
      SortKeeps(entries);
      assert Increasing(es);
      if es != [] { AsnAbovePosition(es, |es| - 1); }
      FirstOfThree(Header(|es|), Concat(IndexEntries(es, IndexEnd(|es|))), Concat(Blobs(es)));
    }
  }

  lemma FirstOfThree<T>(a: seq<T>, b: seq<T>, c: seq<T>)
    ensures a <= a + b + c
  {
  }

  lemma HeaderIs(count: uint32)
    ensures Header(count) == MAGIC + LittleEndian(count, 4) + [0, 0, 0, 0]
  {
  }

  lemma Finished(entries: seq<Entry>, sorted: seq<Entry>, count: uint32, index: seq<byte>, data: seq<byte>, off: nat)
    requires PrefixFine(sorted, |sorted|) && Written(sorted, count, |sorted|, index, data, off)
    requires count == Uint32(|sorted|) && |sorted| == |entries|
    requires (forall x :: x in sorted <==> x in entries) && (Distinct(sorted) <==> Distinct(entries))
    ensures Acceptable(entries) && count == |entries| && Encode(sorted) == Header(count) + index + data
  {
    assert sorted[..|sorted|] == sorted;
    OffsetFits(sorted, |sorted|, count);
    assert Blobs(sorted)[..|sorted|] == Blobs(sorted);
    assert IndexEntries(sorted, IndexEnd(count))[..|sorted|] == IndexEntries(sorted, IndexEnd(count));
  }

  predicate Refusable(es: seq<Entry>, i: nat)
    requires i < |es|
  {
    || es[i].asn == 0 || (i > 0 && es[i].asn == es[i - 1].asn)
    || |Normalize(es[i].ipv4, true)| > 65535 || |Normalize(es[i].ipv6, false)| > 65535
  }

  lemma Refused(entries: seq<Entry>, sorted: seq<Entry>, i: nat)
    requires i < |sorted| && Refusable(sorted, i)
    requires (forall x :: x in sorted <==> x in entries) && (Distinct(sorted) <==> Distinct(entries))
    ensures !Acceptable(entries)
  {
    assert sorted[i] in sorted;
    if i > 0 && sorted[i].asn == sorted[i - 1].asn { assert !Distinct(sorted); }
  }

  lemma PrefixGrows(es: seq<Entry>, i: nat)
    requires i < |es| && Sorted(es) && PrefixFine(es, i)
    requires es[i].asn != 0 && (i > 0 ==> es[i].asn != es[i - 1].asn)
    requires |Normalize(es[i].ipv4, true)| <= 65535 && |Normalize(es[i].ipv6, false)| <= 65535
    ensures PrefixFine(es, i + 1)
  {
    assert es[..i + 1] == es[..i] + [es[i]];
    forall a, b | 0 <= a < b < i + 1 ensures es[a].asn < es[b].asn {
      if b < i { assert es[..i][a].asn < es[..i][b].asn; }
      else if a < i - 1 { assert es[..i][a].asn < es[..i][i - 1].asn; }
    }
  }
}
