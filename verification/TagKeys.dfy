/** The key by which two lists of rule tags are compared: the sorted tags, joined. */
module TagKeys {
  import opened Strings

  /** Lexicographic order; for UTF-8 the order of the bytes. */
  predicate Leq(a: string, b: string) {
    a == [] || (b != [] && (a[0] < b[0] || (a[0] == b[0] && Leq(a[1..], b[1..]))))
  }

  /** The texts differ for the first time at a place where the one has the smaller character. */
  predicate SmallerAt(a: string, b: string, k: nat) {
    k < |a| && k < |b| && a[..k] == b[..k] && a[k] < b[k]
  }

  /** In order are a text and one that it begins, or one that has the greater character where they first
      differ. */
  lemma {:induction false} LeqIff(a: string, b: string)
    ensures Leq(a, b) <==> a <= b || exists k: nat :: SmallerAt(a, b, k)
  {
    hide SmallerAt;
    if a == [] {
      assert a <= b;
    } else if b == [] {
      forall k ensures !SmallerAt(a, b, k) { NotBelowEmpty(a, k); }
    } else {
      var s, t := a[1..], b[1..];
      LeqIff(s, t);
      BeginsIff(a, b);
      if a[0] < b[0] {
        FirstDiffer(a, b, 0);
        assert SmallerAt(a, b, 0);
      }
      forall k: nat ensures SmallerAt(a, b, k + 1) <==> a[0] == b[0] && SmallerAt(s, t, k) {
        SmallerShifts(a, b, k);
      }
      forall k: nat | SmallerAt(a, b, k) ensures a[0] < b[0] || (a[0] == b[0] && exists l: nat :: SmallerAt(s, t, l)) {
        FirstDiffer(a, b, 0);
        if k > 0 { assert SmallerAt(s, t, k - 1) by { assert SmallerAt(a, b, (k - 1) + 1); } }
      }
      if a[0] == b[0] {
        if k: nat :| SmallerAt(s, t, k) { assert SmallerAt(a, b, k + 1); }
      }
    }
  }

  lemma NotBelowEmpty(a: string, k: nat)
    ensures !SmallerAt(a, [], k)
  {
  }

  lemma FirstDiffer(a: string, b: string, k: nat)
    requires a != [] && b != [] && k == 0
    ensures SmallerAt(a, b, k) <==> a[0] < b[0]
  {
    assert a[..0] == b[..0];
  }

  lemma BeginsIff(a: string, b: string)
    requires a != [] && b != []
    ensures a <= b <==> a[0] == b[0] && a[1..] <= b[1..]
  {
    assert a == [a[0]] + a[1..] && b == [b[0]] + b[1..];
  }

  lemma SmallerShifts(a: string, b: string, k: nat)
    requires a != [] && b != []
    ensures SmallerAt(a, b, k + 1) <==> a[0] == b[0] && SmallerAt(a[1..], b[1..], k)
  {
    if k + 1 < |a| && k + 1 < |b| {
      assert a[..k + 1] == [a[0]] + a[1..][..k] && b[..k + 1] == [b[0]] + b[1..][..k];
      assert a[..k + 1] == b[..k + 1] ==> a[..k + 1][1..] == b[..k + 1][1..] && a[..k + 1][0] == b[..k + 1][0];
      assert a[..k + 1][1..] == a[1..][..k] && b[..k + 1][1..] == b[1..][..k];
    }
  }

  lemma {:induction false} LeqTotal(a: string, b: string)
    ensures Leq(a, b) || Leq(b, a)
    ensures Leq(a, b) && Leq(b, a) ==> a == b
  {
    if a != [] && b != [] && a[0] == b[0] {
      LeqTotal(a[1..], b[1..]);
      assert a == [a[0]] + a[1..] && b == [b[0]] + b[1..];
    }
  }

  lemma {:induction false} LeqTransitive(a: string, b: string, c: string)
    requires Leq(a, b) && Leq(b, c)
    ensures Leq(a, c)
  {
    if a != [] && a[0] == b[0] && b[0] == c[0] {
      LeqTransitive(a[1..], b[1..], c[1..]);
    }
  }

  predicate Sorted(tags: seq<string>) {
    forall i, j | 0 <= i < j < |tags| :: Leq(tags[i], tags[j])
  }

  function Insert(tag: string, tags: seq<string>): seq<string> {
    if tags == [] then [tag]
    else if Leq(tag, tags[0]) then [tag] + tags
    else [tags[0]] + Insert(tag, tags[1..])
  }

  /** The tags in order. */
  function Sort(tags: seq<string>): seq<string> {
    if tags == [] then [] else Insert(tags[0], Sort(tags[1..]))
  }

  lemma {:induction false} InsertSorts(tag: string, tags: seq<string>)
    requires Sorted(tags)
    ensures Sorted(Insert(tag, tags)) && multiset(Insert(tag, tags)) == multiset([tag]) + multiset(tags)
  {
    if tags == [] {
    } else if Leq(tag, tags[0]) {
      forall i | 0 <= i < |tags| ensures Leq(tag, tags[i]) {
        if i > 0 { LeqTransitive(tag, tags[0], tags[i]); }
      }
    } else {
      var rest := Insert(tag, tags[1..]);
      InsertSorts(tag, tags[1..]);
      assert tags == [tags[0]] + tags[1..];
      forall i | 0 <= i < |rest| ensures Leq(tags[0], rest[i]) {
        assert rest[i] in multiset(rest);
        if rest[i] == tag { LeqTotal(tag, tags[0]); }
        else {
          assert rest[i] in multiset(tags[1..]);
          var k :| 0 <= k < |tags[1..]| && tags[1..][k] == rest[i];
          assert tags[k + 1] == rest[i];
        }
      }
    }
  }

  lemma {:induction false} SortSorts(tags: seq<string>)
    ensures Sorted(Sort(tags)) && multiset(Sort(tags)) == multiset(tags)
  {
    if tags != [] {
      SortSorts(tags[1..]);
      InsertSorts(tags[0], Sort(tags[1..]));
      assert tags == [tags[0]] + tags[1..];
    }
  }

  lemma FirstIsLeast(tags: seq<string>, tag: string)
    requires Sorted(tags) && tag in tags
    ensures Leq(tags[0], tag)
  {
    var i :| 0 <= i < |tags| && tags[i] == tag;
    if i == 0 { LeqTotal(tag, tag); }
  }

  lemma SortedTail(tags: seq<string>)
    requires Sorted(tags) && tags != []
    ensures Sorted(tags[1..]) && multiset(tags[1..]) == multiset(tags) - multiset{tags[0]}
  {
    var rest := tags[1..];
    forall i, j | 0 <= i < j < |rest| ensures Leq(rest[i], rest[j]) {
      assert rest[i] == tags[i + 1] && rest[j] == tags[j + 1];
    }
    assert tags == [tags[0]] + rest;
  }

  lemma SameFirst(a: seq<string>, b: seq<string>)
    requires Sorted(a) && Sorted(b) && multiset(a) == multiset(b) && a != []
    ensures b != [] && a[0] == b[0]
  {
    assert |multiset(b)| == |a|;
    assert a[0] in multiset(b) && b[0] in multiset(a);
    FirstIsLeast(a, b[0]);
    FirstIsLeast(b, a[0]);
    LeqTotal(a[0], b[0]);
  }

  /** There is one sorted list of given tags. */
  lemma {:induction false} SortedIsUnique(a: seq<string>, b: seq<string>)
    requires Sorted(a) && Sorted(b) && multiset(a) == multiset(b)
    ensures a == b
  {
    hide Sorted, Leq;
    if a == [] {
      assert |multiset(b)| == 0;
    } else {
      SameFirst(a, b);
      SortedTail(a);
      SortedTail(b);
      SortedIsUnique(a[1..], b[1..]);
      assert a == [a[0]] + a[1..] && b == [b[0]] + b[1..];
    }
  }

  // ---------------------------------------------------------------- joining

  predicate Plain(tag: string) {
    tag != "" && ',' !in tag
  }

  predicate AllPlain(tags: seq<string>) {
    forall tag <- tags :: Plain(tag)
  }

  function FirstComma(s: string): nat {
    if s == [] || s[0] == ',' then 0 else 1 + FirstComma(s[1..])
  }

  lemma {:induction false} CommaAfter(part: string, rest: string)
    requires ',' !in part && (rest == [] || rest[0] == ',')
    ensures FirstComma(part + rest) == |part|
  {
    if part == [] {
      assert part + rest == rest;
    } else {
      assert (part + rest)[1..] == part[1..] + rest;
      CommaAfter(part[1..], rest);
    }
  }

  /** What follows the first part. */
  function Tail(parts: seq<string>): string {
    if |parts| <= 1 then "" else "," + Join(parts[1..])
  }

  lemma JoinSplits(parts: seq<string>)
    requires parts != [] && AllPlain(parts)
    ensures Join(parts) != [] && Join(parts) == parts[0] + Tail(parts) && FirstComma(Join(parts)) == |parts[0]|
    ensures Join(parts)[..|parts[0]|] == parts[0] && Join(parts)[|parts[0]|..] == Tail(parts)
  {
    assert Plain(parts[0]);
    CommaAfter(parts[0], Tail(parts));
    assert Join(parts) == parts[0] + Tail(parts);
  }

  lemma {:induction false} JoinInjective(a: seq<string>, b: seq<string>)
    requires AllPlain(a) && AllPlain(b) && Join(a) == Join(b)
    ensures a == b
  {
    if a != [] { JoinSplits(a); }
    if b != [] { JoinSplits(b); }
    if a != [] && b != [] {
      assert a[0] == b[0] && Tail(a) == Tail(b);
      if |a| > 1 || |b| > 1 {
        assert |a| > 1 && |b| > 1;
        assert Tail(a)[1..] == Join(a[1..]) && Tail(b)[1..] == Join(b[1..]);
      }
      assert Join(a[1..]) == Join(b[1..]);
      JoinInjective(a[1..], b[1..]);
      assert a == [a[0]] + a[1..] && b == [b[0]] + b[1..];
    }
  }

  /** Two lists of tags without commas have the same joined text exactly when they hold the same tags
      equally often. */
  lemma SameJoinedIff(a: seq<string>, b: seq<string>)
    requires AllPlain(a) && AllPlain(b)
    ensures Join(Sort(a)) == Join(Sort(b)) <==> multiset(a) == multiset(b)
  {
    SortSorts(a);
    SortSorts(b);
    if Join(Sort(a)) == Join(Sort(b)) {
      PlainPermuted(a, Sort(a));
      PlainPermuted(b, Sort(b));
      JoinInjective(Sort(a), Sort(b));
    }
    if multiset(a) == multiset(b) {
      SortedIsUnique(Sort(a), Sort(b));
    }
  }

  lemma PlainPermuted(a: seq<string>, b: seq<string>)
    requires AllPlain(a) && multiset(a) == multiset(b)
    ensures AllPlain(b)
  {
    forall tag | tag in b ensures Plain(tag) {
      assert tag in multiset(b);
      assert tag in a;
    }
  }

  /** With commas in tags the text can be the same for different tags. */
  lemma CommasCollide()
    ensures Join(Sort(["a,b"])) == Join(Sort(["a", "b"])) && multiset(["a,b"]) != multiset(["a", "b"])
  {
    assert Sort(["b"]) == Insert("b", Sort(["b"][1..]));
    assert ["a", "b"][1..] == ["b"];
    assert Leq("a", "b");
    assert Sort(["a", "b"]) == ["a", "b"];
    assert Sort(["a,b"]) == ["a,b"];
    assert ["a", "b"][1..] == ["b"] && Join(["b"]) == "b";
    assert Join(["a", "b"]) == "a" + "," + "b" == "a,b";
    assert "a,b" in multiset(["a,b"]);
  }
}
