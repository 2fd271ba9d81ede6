/** What the settings and filter sets of a plugin config hold, said of the config's own items. */
module PluginMeaning {
  import opened Bytes
  import opened JsonValues
  import opened PluginLists
  import opened PluginSync
  import opened Strings
  import opened Wrappers

  // ---------------------------------------------------------------- AS numbers

  /** A number as it is written, without leading zeros; nothing for zero. */
  function Written(n: nat): string {
    if n == 0 then "" else Written(n / 10) + ["0123456789"[n % 10]]
  }

  function Zeros(k: nat): string {
    seq(k, _ => '0')
  }

  /** Every text of digits is some zeros and then the number it is read as. */
  lemma {:induction false} DecimalIs(s: string) returns (k: nat)
    requires forall c <- s :: IsDigit(c)
    ensures s == Zeros(k) + Written(Decimal(s))
  {
    if s == "" {
      k := 0;
    } else {
      var n := |s| - 1;
      var init, c := s[..n], s[n];
      assert c in s;
      k := DecimalIs(init);
      var d := Decimal(init);
      assert Decimal(s) == 10 * d + DigitOf(c);
      assert (10 * d + DigitOf(c)) / 10 == d && (10 * d + DigitOf(c)) % 10 == DigitOf(c);
      assert "0123456789"[DigitOf(c)] == c;
      assert s == init + [c];
      if 10 * d + DigitOf(c) == 0 {
        assert s == Zeros(k) + ['0'] == Zeros(k + 1);
        k := k + 1;
      }
    }
  }

  /** An item names an AS number: as a number, or as a text of it, with zeros, an "AS" or "as", and white
      space before and behind it allowed. */
  ghost predicate Names(item: Json, asn: uint32) {
    || (item == JNum(asn as real) && asn > 0)
    || (item.JStr? && asn > 0 && exists k: nat :: Bare(item.s) == Zeros(k) + Written(asn))
  }

  /** A text without white space around it and without a prefix "AS", then "as". */
  function Bare(s: string): string {
    var t := TrimSpace(s);
    var u := if "AS" <= t then t[2..] else t;
    if "as" <= u then u[2..] else u
  }

  lemma AsnOfIff(item: Json, asn: uint32)
    ensures AsnOf(item) == Some(asn) <==> Names(item, asn)
  {
    if asn == 0 { return; }
    hide TrimSpace, Decimal, Written, Zeros;
    if item.JNum? {
      assert (asn as real).Floor == asn;
    } else if item.JStr? {
      assert Bare(item.s) == TrimPrefix(TrimPrefix(TrimSpace(item.s), "AS"), "as");
      ReadsIff(Bare(item.s), asn);
    }
  }

  lemma ReadsIff(t: string, n: uint32)
    requires n > 0
    ensures ParseUint32(t) == Some(n) <==> exists k: nat :: t == Zeros(k) + Written(n)
  {
    hide Written, Zeros;
    if ParseUint32(t) == Some(n) { var k := DecimalIs(t); }
    if exists k: nat :: t == Zeros(k) + Written(n) {
      var k: nat :| t == Zeros(k) + Written(n);
      WrittenReads(k, n);
    }
  }

  lemma {:induction false} WrittenReads(k: nat, n: nat)
    ensures forall c <- Zeros(k) + Written(n) :: IsDigit(c)
    ensures Decimal(Zeros(k) + Written(n)) == n && (n > 0 ==> Written(n) != "")
    decreases n, k
  {
    if n > 0 {
      WrittenReads(k, n / 10);
      var init, c := Zeros(k) + Written(n / 10), "0123456789"[n % 10];
      assert Zeros(k) + Written(n) == init + [c];
      assert (init + [c])[..|init|] == init;
      DigitIs(n % 10);
    } else if k > 0 {
      WrittenReads(k - 1, 0);
      assert Zeros(k) + Written(0) == Zeros(k - 1) + Written(0) + ['0'];
      assert (Zeros(k) + Written(0))[..k - 1] == Zeros(k - 1) + Written(0);
    }
  }

  lemma DigitIs(d: nat)
    requires d < 10
    ensures IsDigit("0123456789"[d]) && DigitOf("0123456789"[d]) == d
  {
  }

  // ---------------------------------------------------------------- shared lists

  function SharedLists(cfg: Fields): seq<Json> {
    ArrayFrom(Get(cfg, "sharedLists"))
  }

  /** A shared list goes by its name, with "ext:" before it if that is not there already. */
  predicate GoesBy(entry: Json, key: string) {
    var name := StringField(entry, "name");
    && name != "" && (StringField(entry, "type") == "ipList" || StringField(entry, "type") == "asList")
    && key == if "ext:" <= name then name else "ext:" + name
  }

  /** The last list with a name counts. */
  predicate Counts(lists: seq<Json>, i: int, key: string) {
    0 <= i < |lists| && GoesBy(lists[i], key) && forall j | i < j < |lists| :: !GoesBy(lists[j], key)
  }

  /** An address is on a list of addresses, or among the prefixes of an AS number on a list of those. */
  ghost predicate OnList(entry: Json, asn: Resolver, address: string) {
    var items := ArrayFrom(Get(FieldsFrom(entry), "items"));
    if StringField(entry, "type") == "ipList" then address != "" && JStr(address) in items
    else asn.Some? && exists item, n :: item in items && Names(item, n) && InPrefixes(asn.value(n), address)
  }

  predicate InPrefixes(prefixes: (seq<string>, seq<string>), address: string) {
    address in prefixes.0 || address in prefixes.1
  }

  /** An address stands in a list of a config: itself, or by a shared list that is named there. */
  ghost predicate Stands(items: seq<Json>, cfg: Fields, asn: Resolver, address: string) {
    || (address != "" && !("ext:" <= address) && JStr(address) in items)
    || exists key, i :: "ext:" <= key && JStr(key) in items && Counts(SharedLists(cfg), i, key)
                        && OnList(SharedLists(cfg)[i], asn, address)
  }

  lemma {:induction false} AsPrefixesIff(items: seq<Json>, asn: Resolver, address: string)
    ensures address in AsPrefixes(items, asn)
       <==> asn.Some? && exists item, n :: item in items && Names(item, n) && InPrefixes(asn.value(n), address)
  {
    if items != [] && asn.Some? {
      var m := |items| - 1;
      var init, last := items[..m], items[m];
      AsPrefixesIff(init, asn, address);
      assert items == init + [last];
      hide Names;
      forall n: uint32 ensures AsnOf(last) == Some(n) <==> Names(last, n) { AsnOfIff(last, n); }
      if address in AsPrefixes(items, asn) && address !in AsPrefixes(init, asn) {
        assert Names(last, AsnOf(last).value) && InPrefixes(asn.value(AsnOf(last).value), address) && last in items;
      } else if address in AsPrefixes(init, asn) {
        var item, n :| item in init && Names(item, n) && InPrefixes(asn.value(n), address);
        assert item in items;
      }
    }
  }

  lemma ListOfIff(entry: Json, asn: Resolver, key: string, address: string)
    ensures HasKey(entry, key, asn) <==> GoesBy(entry, key)
    ensures GoesBy(entry, key) ==> (address in ListOf(entry, asn).value <==> OnList(entry, asn, address))
  {
    var items := ArrayFrom(Get(FieldsFrom(entry), "items"));
    TextItemsAre(items, address);
    AsPrefixesIff(items, asn, address);
  }

  lemma StandsIff(items: seq<Json>, cfg: Fields, asn: Resolver, address: string)
    ensures Listed(items, SharedOf(cfg, asn), address) <==> Stands(items, cfg, asn, address)
  {
    hide OnList, GoesBy, HasKey, ListOf, Shared;
    var lists, shared := SharedLists(cfg), SharedOf(cfg, asn);
    if Listed(items, shared, address) && !(address != "" && !IsExternal(address) && JStr(address) in items) {
      var key :| key in shared && IsExternal(key) && JStr(key) in items && address in shared[key];
      SharedIff(lists, asn, key, shared[key]);
      var i: nat :| LastWith(lists, i, key, asn, shared[key]);
      LastCounts(lists, i, key, asn, address);
    }
    if Stands(items, cfg, asn, address) && !(address != "" && !("ext:" <= address) && JStr(address) in items) {
      var key, i :| "ext:" <= key && JStr(key) in items && Counts(lists, i, key) && OnList(lists[i], asn, address);
      LastCounts(lists, i, key, asn, address);
      SharedIff(lists, asn, key, ListOf(lists[i], asn).value);
    }
  }

  lemma LastCounts(lists: seq<Json>, i: nat, key: string, asn: Resolver, address: string)
    requires i < |lists|
    ensures Counts(lists, i, key)
       <==> HasKey(lists[i], key, asn) && LastWith(lists, i, key, asn, ListOf(lists[i], asn).value)
    ensures Counts(lists, i, key) ==>
              && ListOf(lists[i], asn).Some?
              && (address in ListOf(lists[i], asn).value <==> OnList(lists[i], asn, address))
  {
    hide OnList, GoesBy, ListOf;
    forall j | 0 <= j < |lists| ensures HasKey(lists[j], key, asn) <==> GoesBy(lists[j], key) {
      ListOfIff(lists[j], asn, key, address);
    }
    ListOfIff(lists[i], asn, key, address);
  }

  // ---------------------------------------------------------------- resolved lists

  /** A list of addresses is what stands in a list of items. */
  ghost predicate Holds(items: seq<Json>, cfg: Fields, asn: Resolver, addresses: seq<string>) {
    forall a :: a in addresses <==> Stands(items, cfg, asn, a)
  }

  /** In the order of the items: wherever the items are cut, the addresses can be cut so that either part
      is what stands in either part of the items. */
  ghost predicate Follows(items: seq<Json>, cfg: Fields, asn: Resolver, addresses: seq<string>) {
    forall k | 0 <= k <= |items| :: CanCut(items, cfg, asn, addresses, k)
  }

  ghost predicate CanCut(items: seq<Json>, cfg: Fields, asn: Resolver, addresses: seq<string>, k: int) {
    exists m :: CutAt(items, cfg, asn, addresses, k, m)
  }

  ghost predicate CutAt(items: seq<Json>, cfg: Fields, asn: Resolver, addresses: seq<string>, k: int, m: int) {
    && 0 <= k <= |items| && 0 <= m <= |addresses|
    && Holds(items[..k], cfg, asn, addresses[..m]) && Holds(items[k..], cfg, asn, addresses[m..])
  }

  lemma ResolvedHolds(items: seq<Json>, cfg: Fields, asn: Resolver)
    ensures Holds(items, cfg, asn, Resolve(TextItems(items), SharedOf(cfg, asn)))
  {
    hide Stands, Listed, Resolve, TextItems;
    forall a ensures a in Resolve(TextItems(items), SharedOf(cfg, asn)) <==> Stands(items, cfg, asn, a) {
      ListedIff(items, SharedOf(cfg, asn), a);
      StandsIff(items, cfg, asn, a);
    }
  }

  lemma {:induction false} ResolveConcat(a: seq<string>, b: seq<string>, shared: map<string, seq<string>>)
    ensures Resolve(a + b, shared) == Resolve(a, shared) + Resolve(b, shared)
  {
    if b == [] {
      assert a + b == a;
    } else {
      assert (a + b)[..|a + b| - 1] == a + b[..|b| - 1];
      ResolveConcat(a, b[..|b| - 1], shared);
    }
  }

  lemma ResolvedFollows(items: seq<Json>, cfg: Fields, asn: Resolver)
    ensures Follows(items, cfg, asn, Resolve(TextItems(items), SharedOf(cfg, asn)))
  {
    hide Holds, Resolve, TextItems, SharedOf;
    var shared := SharedOf(cfg, asn);
    var all := Resolve(TextItems(items), shared);
    forall k | 0 <= k <= |items| ensures CanCut(items, cfg, asn, all, k) {
      var a, b := Resolve(TextItems(items[..k]), shared), Resolve(TextItems(items[k..]), shared);
      assert items == items[..k] + items[k..];
      TextItemsInOrder(items[..k], items[k..]);
      ResolveConcat(TextItems(items[..k]), TextItems(items[k..]), shared);
      ResolvedHolds(items[..k], cfg, asn);
      ResolvedHolds(items[k..], cfg, asn);
      assert all[..|a|] == a && all[|a|..] == b;
      assert CutAt(items, cfg, asn, all, k, |a|);
    }
  }

  // ---------------------------------------------------------------- the filter sets

  /** A section of a config, if it is one and is enabled. */
  predicate IsOn(cfg: Fields, section: string) {
    section in cfg && cfg[section].JObj? && "enabled" in cfg[section].fields
    && cfg[section].fields["enabled"] == JBool(true)
  }

  /** The items of a list in a section. */
  function ItemsOf(cfg: Fields, section: string, list: string): seq<Json> {
    ArrayFrom(Get(FieldsFrom(Get(cfg, section)), list))
  }

  /** The filter sets of a config: each family's addresses are what normalising makes of just the addresses
      that stand in the section's own blockedIps, in their order; the ports are the numbers among its own
      blockedPorts, without fractions, for both families; and all is empty for a section that is off. */
  lemma FiltersMean(cfg: Fields, asn: Resolver, normalize: Normalizer) returns (ins: seq<string>, outs: seq<string>)
    ensures Holds(ItemsOf(cfg, "ingressFilter", "blockedIps"), cfg, asn, ins)
    ensures Follows(ItemsOf(cfg, "ingressFilter", "blockedIps"), cfg, asn, ins)
    ensures Holds(ItemsOf(cfg, "egressFilter", "blockedIps"), cfg, asn, outs)
    ensures Follows(ItemsOf(cfg, "egressFilter", "blockedIps"), cfg, asn, outs)
    ensures var f := FiltersOf(cfg, asn, normalize);
            && f.ingress4 == (if IsOn(cfg, "ingressFilter") then normalize(ins).0 else {})
            && f.ingress6 == (if IsOn(cfg, "ingressFilter") then normalize(ins).1 else {})
            && f.egress4 == (if IsOn(cfg, "egressFilter") then normalize(outs).0 else {})
            && f.egress6 == (if IsOn(cfg, "egressFilter") then normalize(outs).1 else {})
            && f.ports4 == f.ports6
            && forall port :: port in f.ports4 <==> IsOn(cfg, "egressFilter") && exists x: real ::
                 JNum(x) in ItemsOf(cfg, "egressFilter", "blockedPorts") && CutsTo(x, port)
  {
    hide Holds, Follows, Resolve, TextItems, Shared;
    var inItems, outItems := ItemsOf(cfg, "ingressFilter", "blockedIps"), ItemsOf(cfg, "egressFilter", "blockedIps");
    ins, outs := Resolve(TextItems(inItems), SharedOf(cfg, asn)), Resolve(TextItems(outItems), SharedOf(cfg, asn));
    ResolvedHolds(inItems, cfg, asn);
    ResolvedFollows(inItems, cfg, asn);
    ResolvedHolds(outItems, cfg, asn);
    ResolvedFollows(outItems, cfg, asn);
    PortsMean(cfg);
  }

  /** A number without its fraction. */
  predicate CutsTo(x: real, n: int) {
    if x >= 0.0 then n as real <= x < (n + 1) as real else (n - 1) as real < x <= n as real
  }

  lemma PortsMean(cfg: Fields)
    ensures forall port :: port in PortsOf(cfg) <==> exists x: real ::
              JNum(x) in ItemsOf(cfg, "egressFilter", "blockedPorts") && CutsTo(x, port)
  {
    NumbersAre(ItemsOf(cfg, "egressFilter", "blockedPorts"));
    forall x: real, n: int ensures Truncate(x) == n <==> CutsTo(x, n) {}
  }

  // ---------------------------------------------------------------- the settings

  /** The blocker's options: all zero unless its section is on; else what its fields say. */
  lemma TorrentMean(cfg: Fields, asn: Resolver) returns (at: seq<nat>)
    ensures var t, b := TorrentOf(cfg, asn), FieldsFrom(Get(cfg, "torrentBlocker"));
            if !IsOn(cfg, "torrentBlocker") then t == Torrent(false, 0, [], 0.0, {}, {}, "") else
              && t.enabled
              && IsNumber(Get(b, "rulePlacement"), t.rulePlacement)
              && IsSafeInteger(Get(b, "blockDuration"), t.blockDuration)
              && t.webhookURL == (if Get(b, "webhookUrl").JStr? then Get(b, "webhookUrl").s else "")
              && TextsAt(ArrayFrom(Get(b, "includeRuleTags")), t.includeRuleTags, at)
              && (forall a :: a in t.ignoredIPs
                    <==> Stands(ArrayFrom(Get(FieldsFrom(Get(b, "ignoreLists")), "ip")), cfg, asn, a))
              && (forall u :: u in t.ignoredUsers
                    <==> -9007199254740991 <= u <= 9007199254740991
                         && JNum(u as real) in ArrayFrom(Get(FieldsFrom(Get(b, "ignoreLists")), "userId")))
  {
    hide Stands, TextItems, Resolve, Shared, Integers;
    var b := FieldsFrom(Get(cfg, "torrentBlocker"));
    at := TextItemsAt(ArrayFrom(Get(b, "includeRuleTags")));
    ResolvedHolds(ArrayFrom(Get(FieldsFrom(Get(b, "ignoreLists")), "ip")), cfg, asn);
    IntegersAre(ArrayFrom(Get(FieldsFrom(Get(b, "ignoreLists")), "userId")));
    SafeInteger(Get(b, "blockDuration"));
  }

  /** A value read as a number is that number, or zero if it is none. */
  predicate IsNumber(v: Json, x: real) {
    if v.JNum? then x == v.n else x == 0.0
  }

  /** A value read as an integer is that integer, or zero if it is none that a float64 holds exactly. */
  ghost predicate IsSafeInteger(v: Json, n: int) {
    SafelyIs(v, n) || (n == 0 && forall m :: !SafelyIs(v, m))
  }

  predicate SafelyIs(v: Json, n: int) {
    -9007199254740991 <= n <= 9007199254740991 && v == JNum(n as real)
  }

  lemma SafeInteger(v: Json)
    ensures IsSafeInteger(v, IntegerOf(v))
  {
    IntegerOnly(v);
  }

  /** The texts are those at the given places, which are in order and are all that hold a text that is
      not empty. */
  predicate TextsAt(items: seq<Json>, texts: seq<string>, at: seq<nat>) {
    && |at| == |texts|
    && (forall k | 0 <= k < |at| :: at[k] < |items| && items[at[k]] == JStr(texts[k]) && texts[k] != "")
    && (forall j, k | 0 <= j < k < |at| :: at[j] < at[k])
    && (forall i | 0 <= i < |items| && items[i].JStr? && items[i].s != "" :: i in at)
  }

  lemma {:induction false} TextItemsAt(items: seq<Json>) returns (at: seq<nat>)
    ensures TextsAt(items, TextItems(items), at)
  {
    at := [];
    if items != [] {
      var n := |items| - 1;
      at := TextItemsAt(items[..n]);
      if items[n].JStr? && items[n].s != "" {
        TextsMore(items, n, TextItems(items[..n]), at);
        at := at + [n];
      } else {
        TextsNoMore(items, n, TextItems(items[..n]), at);
      }
    }
  }

  lemma TextsMore(items: seq<Json>, n: nat, texts: seq<string>, at: seq<nat>)
    requires n + 1 == |items| && TextsAt(items[..n], texts, at) && items[n].JStr? && items[n].s != ""
    ensures TextsAt(items, texts + [items[n].s], at + [n])
  {
    var all := at + [n];
    forall i | 0 <= i < |items| && items[i].JStr? && items[i].s != "" ensures i in all {
      if i < n { assert items[..n][i] == items[i] && i in at; } else { assert all[|at|] == n; }
    }
  }

  lemma TextsNoMore(items: seq<Json>, n: nat, texts: seq<string>, at: seq<nat>)
    requires n + 1 == |items| && TextsAt(items[..n], texts, at) && !(items[n].JStr? && items[n].s != "")
    ensures TextsAt(items, texts, at)
  {
    forall i | 0 <= i < |items| && items[i].JStr? && items[i].s != "" ensures i in at {
      assert items[..n][i] == items[i];
    }
  }

  /** Whose connections are not dropped: what stands in the whitelist of a section that is on. */
  lemma WhitelistMean(cfg: Fields, asn: Resolver)
    ensures forall a :: a in WhitelistOf(cfg, asn)
              <==> IsOn(cfg, "connectionDrop") && Stands(ItemsOf(cfg, "connectionDrop", "whitelistIps"), cfg, asn, a)
  {
    hide Stands, Resolve, TextItems, Shared;
    ResolvedHolds(ItemsOf(cfg, "connectionDrop", "whitelistIps"), cfg, asn);
  }

  /** The files keep the order in which they are listed. */
  lemma {:induction false} TrimmedConcat(a: seq<string>, b: seq<string>)
    ensures Trimmed(a + b) == Trimmed(a) + Trimmed(b)
  {
    hide Trimmed, TrimSpace;
    if b == [] {
      TrimmedNone();
      assert a + b == a;
    } else {
      var n := |b| - 1;
      TrimmedConcat(a, b[..n]);
      TrimmedNext(a + b[..n], b[n]);
      TrimmedNext(b[..n], b[n]);
      assert a + b[..n] + [b[n]] == a + b && b[..n] + [b[n]] == b;
    }
  }

  /** One more listed file: it is there without the white space around it, if anything is left. */
  lemma TrimmedNext(files: seq<string>, file: string)
    ensures TrimSpace(file) == "" ==> Trimmed(files + [file]) == Trimmed(files)
    ensures TrimSpace(file) != "" ==> Trimmed(files + [file]) == Trimmed(files) + [TrimSpace(file)]
  {
    hide TrimSpace;
    assert (files + [file])[..|files|] == files;
  }

  lemma TrimmedNone()
    ensures Trimmed([]) == []
  {
  }

  /** What is cleaned up before a start: the two switches, and the files without white space around them. */
  lemma PreStartMean(cfg: Fields)
    ensures var p, section := PreStartOf(cfg), FieldsFrom(Get(cfg, "preStart"));
            && (p.enabled <==> IsOn(cfg, "preStart"))
            && (p.cleanupEnabled <==> IsOn(section, "cleanupSockets"))
            && p.files == Trimmed(TextItems(ItemsOf(section, "cleanupSockets", "files")))
            && forall file :: file in p.files <==> file != "" && exists raw ::
                 JStr(raw) in ItemsOf(section, "cleanupSockets", "files") && TrimSpace(raw) == file
  {
    hide TrimSpace;
    forall file ensures file in PreStartOf(cfg).files <==> file != "" && exists raw ::
      JStr(raw) in ItemsOf(FieldsFrom(Get(cfg, "preStart")), "cleanupSockets", "files") && TrimSpace(raw) == file
    {
      PreStartMeans(cfg, file);
    }
  }
}
