/** The lists of a plugin config: addresses given directly, by shared lists or by AS number. */
module PluginLists {
  import opened Bytes
  import opened JsonValues
  import opened Strings
  import opened Wrappers

  /** The ASN database, when there is one: the prefixes of an AS number. */
  type Resolver = Option<uint32 -> (seq<string>, seq<string>)>

  const MAX_SAFE_INTEGER := 9007199254740991

  function Integer(n: real): Option<int> {
    if n.Floor as real == n then Some(n.Floor) else None
  }

  function AsInt(item: Json): Option<int> {
    if item.JNum? && Integer(item.n).Some? && -MAX_SAFE_INTEGER <= Integer(item.n).value <= MAX_SAFE_INTEGER
    then Integer(item.n) else None
  }

  function Truncate(n: real): int {
    if n >= 0.0 then n.Floor else -(-n).Floor
  }

  // ---------------------------------------------------------------- plain lists

  function TextItems(items: seq<Json>): seq<string> {
    if items == [] then []
    else
      var last := items[|items| - 1];
      TextItems(items[..|items| - 1]) + if last.JStr? && last.s != "" then [last.s] else []
  }

  function Integers(items: seq<Json>): seq<int> {
    if items == [] then []
    else
      var last := AsInt(items[|items| - 1]);
      Integers(items[..|items| - 1]) + if last.Some? then [last.value] else []
  }

  function Numbers(items: seq<Json>): seq<int> {
    if items == [] then []
    else
      var last := items[|items| - 1];
      Numbers(items[..|items| - 1]) + if last.JNum? then [Truncate(last.n)] else []
  }

  predicate IsDigit(c: char) {
    '0' <= c <= '9'
  }

  function DigitOf(c: char): nat
    requires IsDigit(c)
  {
    c as int - '0' as int
  }

  /** The number a text of decimal digits stands for. */
  function Decimal(s: string): (n: nat)
    requires forall c <- s :: IsDigit(c)
  {
    if s == [] then 0 else 10 * Decimal(s[..|s| - 1]) + DigitOf(s[|s| - 1])
  }

  /** `strconv.ParseUint` in base 10 for 32 bits. */
  function ParseUint32(s: string): Option<uint32> {
    if s != [] && (forall c <- s :: IsDigit(c)) && Decimal(s) < 0x1_0000_0000 then Some(Decimal(s)) else None
  }

  function TrimPrefix(s: string, prefix: string): string {
    if prefix <= s then s[|prefix|..] else s
  }

  /** The AS number of an item: a whole number, or a text like "AS64500". */
  function AsnOf(item: Json): (asn: Option<uint32>)
    ensures asn.Some? ==> asn.value > 0
  {
    if item.JNum? && Integer(item.n).Some? && 0 < Integer(item.n).value <= 4294967295
    then Some(Integer(item.n).value)
    else if item.JStr?
    then
      var n := ParseUint32(TrimPrefix(TrimPrefix(TrimSpace(item.s), "AS"), "as"));
      if n.Some? && n.value > 0 then n else None
    else None
  }

  method ToStringSlice(value: Json) returns (out: seq<string>)
    ensures out == TextItems(ArrayFrom(value))
  {
    out := [];
    var items := ArrayFrom(value);
    for i := 0 to |items|
      invariant out == TextItems(items[..i])
    {
      assert items[..i + 1][..i] == items[..i];
      if items[i].JStr? && items[i].s != "" {
        out := out + [items[i].s];
      }
    }
    assert items[..|items|] == items;
  }

  method ToIntegerSlice(value: Json) returns (out: seq<int>)
    ensures out == Integers(ArrayFrom(value))
  {
    out := [];
    var items := ArrayFrom(value);
    for i := 0 to |items|
      invariant out == Integers(items[..i])
    {
      assert items[..i + 1][..i] == items[..i];
      var n := AsInt(items[i]);
      if n.Some? {
        out := out + [n.value];
      }
    }
    assert items[..|items|] == items;
  }

  method ToIntSlice(value: Json) returns (out: seq<int>)
    ensures out == Numbers(ArrayFrom(value))
  {
    out := [];
    var items := ArrayFrom(value);
    for i := 0 to |items|
      invariant out == Numbers(items[..i])
    {
      assert items[..i + 1][..i] == items[..i];
      if items[i].JNum? {
        out := out + [Truncate(items[i].n)];
      }
    }
    assert items[..|items|] == items;
  }

  /** Exactly the non-empty strings of a list, each as often as it is there. */
  lemma {:induction false} TextItemsAre(items: seq<Json>, s: string)
    ensures s in TextItems(items) <==> s != "" && JStr(s) in items
    ensures s != "" ==> multiset(TextItems(items))[s] == multiset(items)[JStr(s)]
  {
    if items != [] {
      var init, last := items[..|items| - 1], items[|items| - 1];
      TextItemsAre(init, s);
      assert items == init + [last];
    }
  }

  /** In their order: what precedes an item comes out before it. */
  lemma {:induction false} TextItemsInOrder(a: seq<Json>, b: seq<Json>)
    ensures TextItems(a + b) == TextItems(a) + TextItems(b)
  {
    if b == [] {
      assert a + b == a;
    } else {
      assert (a + b)[..|a + b| - 1] == a + b[..|b| - 1];
      TextItemsInOrder(a, b[..|b| - 1]);
    }
  }

  /** Exactly the whole numbers of a list that a float64 holds exactly. */
  lemma {:induction false} IntegersAre(items: seq<Json>)
    ensures forall n :: n in Integers(items) <==>
              -MAX_SAFE_INTEGER <= n <= MAX_SAFE_INTEGER && JNum(n as real) in items
  {
    if items != [] {
      var m := |items| - 1;
      IntegersAre(items[..m]);
      assert items == items[..m] + [items[m]];
      IntegerOnly(items[m]);
    }
  }

  lemma IntegerOnly(item: Json)
    ensures forall n ::
              AsInt(item) == Some(n) <==> -MAX_SAFE_INTEGER <= n <= MAX_SAFE_INTEGER && item == JNum(n as real)
  {
    forall n ensures AsInt(item) == Some(n) <==> -MAX_SAFE_INTEGER <= n <= MAX_SAFE_INTEGER && item == JNum(n as real) {
      assert (n as real).Floor == n;
    }
  }

  /** The whole ports of a list are the ports of the set; a fraction is cut off toward zero. */
  lemma {:induction false} NumbersAre(items: seq<Json>)
    ensures |Numbers(items)| <= |items|
    ensures forall n :: n in Numbers(items) <==> exists x: real :: JNum(x) in items && Truncate(x) == n
    ensures forall n: int :: JNum(n as real) in items ==> n in Numbers(items)
  {
    if items != [] {
      var m := |items| - 1;
      NumbersAre(items[..m]);
      assert items == items[..m] + [items[m]];
      forall n ensures n in Numbers(items) <==> exists x: real :: JNum(x) in items && Truncate(x) == n {
        if n in Numbers(items[..m]) {
          var x: real :| JNum(x) in items[..m] && Truncate(x) == n;
          assert JNum(x) in items;
        } else if n in Numbers(items) {
          assert JNum(items[m].n) in items && Truncate(items[m].n) == n;
        }
        if exists x: real :: JNum(x) in items && Truncate(x) == n {
          var x: real :| JNum(x) in items && Truncate(x) == n;
          assert JNum(x) in items[..m] || JNum(x) == items[m];
        }
      }
      forall n: int | JNum(n as real) in items ensures n in Numbers(items) {
        assert Truncate(n as real) == n;
      }
    }
  }

  // ---------------------------------------------------------------- shared lists

  /** The prefixes of the AS numbers of a list. */
  function AsPrefixes(items: seq<Json>, resolver: Resolver): seq<string> {
    if items == [] || resolver.None? then []
    else
      var asn := AsnOf(items[|items| - 1]);
      AsPrefixes(items[..|items| - 1], resolver) +
      if asn.Some? then resolver.value(asn.value).0 + resolver.value(asn.value).1 else []
  }

  method ResolveASList(rawItems: Json, resolver: Resolver) returns (out: seq<string>)
    ensures out == AsPrefixes(ArrayFrom(rawItems), resolver)
  {
    out := [];
    if resolver.None? {
      return;
    }
    var items := ArrayFrom(rawItems);
    for i := 0 to |items|
      invariant out == AsPrefixes(items[..i], resolver)
    {
      assert items[..i + 1][..i] == items[..i];
      var asn := AsnOf(items[i]);
      if asn.Some? {
        var prefixes := resolver.value(asn.value);
        out := out + prefixes.0;
        out := out + prefixes.1;
      }
    }
    assert items[..|items|] == items;
  }

  predicate IsExternal(s: string) {
    "ext:" <= s
  }

  function Key(name: string): string {
    if IsExternal(name) then name else "ext:" + name
  }

  /** The addresses a shared list stands for, if it has a name and a known type. */
  function ListOf(entry: Json, resolver: Resolver): Option<seq<string>> {
    var items := ArrayFrom(Get(FieldsFrom(entry), "items"));
    if StringField(entry, "name") == "" then None
    else if StringField(entry, "type") == "ipList" then Some(TextItems(items))
    else if StringField(entry, "type") == "asList" then Some(AsPrefixes(items, resolver))
    else None
  }

  /** The shared lists by key; of lists with the same key the last one counts. */
  function Shared(lists: seq<Json>, resolver: Resolver): map<string, seq<string>> {
    if lists == [] then map[]
    else
      var before, last := Shared(lists[..|lists| - 1], resolver), lists[|lists| - 1];
      if ListOf(last, resolver).Some? then before[Key(StringField(last, "name")) := ListOf(last, resolver).value]
      else before
  }

  /** Whether a list is one of those with a key. */
  predicate HasKey(entry: Json, key: string, resolver: Resolver) {
    ListOf(entry, resolver).Some? && Key(StringField(entry, "name")) == key
  }

  /** The list is the last with the key, and has these addresses. */
  predicate LastWith(lists: seq<Json>, k: nat, key: string, resolver: Resolver, addresses: seq<string>) {
    && k < |lists| && HasKey(lists[k], key, resolver) && ListOf(lists[k], resolver).value == addresses
    && forall l | k < l < |lists| :: !HasKey(lists[l], key, resolver)
  }

  /** A key stands for the last list that has it. */
  lemma {:induction false} SharedIff(lists: seq<Json>, resolver: Resolver, key: string, addresses: seq<string>)
    ensures (key in Shared(lists, resolver) && Shared(lists, resolver)[key] == addresses)
       <==> exists k: nat :: LastWith(lists, k, key, resolver, addresses)
  {
    if lists != [] {
      hide ListOf, LastWith;
      var n := |lists| - 1;
      SharedIff(lists[..n], resolver, key, addresses);
      forall k: nat ensures LastWith(lists, k, key, resolver, addresses)
        <==> if HasKey(lists[n], key, resolver) then k == n && ListOf(lists[n], resolver).value == addresses
             else LastWith(lists[..n], k, key, resolver, addresses)
      {
        LastNext(lists, k, key, resolver, addresses);
      }
      if HasKey(lists[n], key, resolver) {
        assert LastWith(lists, n, key, resolver, addresses) <==> ListOf(lists[n], resolver).value == addresses;
      } else {
        assert (exists k: nat :: LastWith(lists, k, key, resolver, addresses))
          <==> exists k: nat :: LastWith(lists[..n], k, key, resolver, addresses);
      }
    } else {
      assert forall k: nat :: !LastWith(lists, k, key, resolver, addresses);
    }
  }

  lemma LastNext(lists: seq<Json>, k: nat, key: string, resolver: Resolver, addresses: seq<string>)
    requires lists != []
    ensures var n := |lists| - 1;
            LastWith(lists, k, key, resolver, addresses)
            <==> if HasKey(lists[n], key, resolver) then k == n && ListOf(lists[n], resolver).value == addresses
                 else LastWith(lists[..n], k, key, resolver, addresses)
  {
    hide HasKey, ListOf;
    var n := |lists| - 1;
    var init := lists[..n];
    assert forall l | 0 <= l < n :: init[l] == lists[l];
    if LastWith(lists, k, key, resolver, addresses) && k < n {
      assert !HasKey(lists[n], key, resolver);
      forall l | k < l < n ensures !HasKey(init[l], key, resolver) { assert !HasKey(lists[l], key, resolver); }
    }
  }

  method BuildSharedIPMap(rawConfig: Fields, resolver: Resolver) returns (shared: map<string, seq<string>>)
    ensures shared == Shared(ArrayFrom(Get(rawConfig, "sharedLists")), resolver)
  {
    hide TextItems, AsPrefixes;
    shared := map[];
    var lists := ArrayFrom(Get(rawConfig, "sharedLists"));
    for i := 0 to |lists|
      invariant shared == Shared(lists[..i], resolver)
    {
      assert lists[..i + 1][..i] == lists[..i];
      var item := lists[i];
      if !item.JObj? {
        continue;
      }
      var name := StringField(item, "name");
      if name == "" {
        continue;
      }
      var key := name;
      if !IsExternal(name) {
        key := "ext:" + name;
      }
      var entryType := StringField(item, "type");
      if entryType == "ipList" {
        var list := ToStringSlice(Get(item.fields, "items"));
        shared := shared[key := list];
      } else if entryType == "asList" {
        var list := ResolveASList(Get(item.fields, "items"), resolver);
        shared := shared[key := list];
      }
    }
    assert lists[..|lists|] == lists;
  }

  // ---------------------------------------------------------------- resolving

  /** What an item of a list stands for. */
  function Expand(item: string, shared: map<string, seq<string>>): seq<string> {
    if !IsExternal(item) then [item] else if item in shared then shared[item] else []
  }

  function Resolve(items: seq<string>, shared: map<string, seq<string>>): seq<string> {
    if items == [] then [] else Resolve(items[..|items| - 1], shared) + Expand(items[|items| - 1], shared)
  }

  method ResolveIPList(items: seq<string>, shared: map<string, seq<string>>) returns (out: seq<string>)
    ensures out == Resolve(items, shared)
  {
    out := [];
    for i := 0 to |items|
      invariant out == Resolve(items[..i], shared)
    {
      assert items[..i + 1][..i] == items[..i];
      if IsExternal(items[i]) {
        if items[i] in shared {
          out := out + shared[items[i]];
        }
        continue;
      }
      out := out + [items[i]];
    }
    assert items[..|items|] == items;
  }

  /** An address is in a resolved list exactly when it is given directly or by a shared list that the
      config defines. */
  lemma {:induction false} ResolvedIff(items: seq<string>, shared: map<string, seq<string>>, address: string)
    ensures address in Resolve(items, shared)
       <==> (address in items && !IsExternal(address))
            || exists k :: k in items && IsExternal(k) && k in shared && address in shared[k]
  {
    if items != [] {
      var init, last := items[..|items| - 1], items[|items| - 1];
      ResolvedIff(init, shared, address);
      assert items == init + [last];
      if exists k :: k in items && IsExternal(k) && k in shared && address in shared[k] {
        var k :| k in items && IsExternal(k) && k in shared && address in shared[k];
        assert k in init || k == last;
      }
      if exists k :: k in init && IsExternal(k) && k in shared && address in shared[k] {
        var k :| k in init && IsExternal(k) && k in shared && address in shared[k];
        assert k in items;
      }
      if address in Expand(last, shared) && IsExternal(last) {
        assert last in items;
      }
    }
  }

  /** In terms of the config's own items: an address is listed directly, or by the name of a shared
      list. */
  predicate Listed(items: seq<Json>, shared: map<string, seq<string>>, address: string) {
    || (address != "" && !IsExternal(address) && JStr(address) in items)
    || exists k :: k in shared && IsExternal(k) && JStr(k) in items && address in shared[k]
  }

  lemma ListedIff(items: seq<Json>, shared: map<string, seq<string>>, address: string)
    ensures address in Resolve(TextItems(items), shared) <==> Listed(items, shared, address)
  {
    ResolvedIff(TextItems(items), shared, address);
    forall s ensures s in TextItems(items) <==> s != "" && JStr(s) in items { TextItemsAre(items, s); }
    assert forall k :: IsExternal(k) ==> k != "";
  }
}
