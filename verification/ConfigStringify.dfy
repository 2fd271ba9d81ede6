/** The text of a plugin config that is hashed to see whether the config has changed, made from the
    token stream of a JSON decoder. */
module ConfigStringify {
  import opened Strings
  import opened Wrappers

  /** The tokens of a JSON text (RFC 8259, section 2); a number is kept as it is written. */
  datatype Token =
    | OpenObject | CloseObject | OpenArray | CloseArray
    | StringToken(s: string) | NumberToken(text: string) | BoolToken(b: bool) | NullToken

  datatype Error = Truncated | UnexpectedDelimiter | KeyNotString

  // ---------------------------------------------------------------- whitespace

  function DropBlanks(s: string): (r: string)
    ensures |r| <= |s| && (r != [] ==> !IsBlank(r[0]))
  {
    if s != [] && IsBlank(s[0]) then DropBlanks(s[1..]) else s
  }

  /** Each run of blanks becomes one space. */
  function Collapse(s: string): string
    decreases |s|
  {
    if s == [] then []
    else if IsBlank(s[0]) then [' '] + Collapse(DropBlanks(s[1..]))
    else [s[0]] + Collapse(s[1..])
  }

  function TrimString(s: string): string {
    TrimSpace(Collapse(s))
  }

  predicate AllBlank(s: string) {
    forall c <- s :: IsBlank(c)
  }

  predicate Word(s: string) {
    forall c <- s :: !IsBlank(c)
  }

  /** A text with blanks in it is a word, some blanks and a text that begins without: the word stays and
      the blanks become one space. */
  lemma CollapseAt(word: string, blanks: string, rest: string)
    requires Word(word) && AllBlank(blanks) && (rest != [] ==> !IsBlank(rest[0]))
    ensures Collapse(word) == word
    ensures blanks != [] ==> Collapse(word + (blanks + rest)) == word + (" " + Collapse(rest))
  {
    WordStays(word, []);
    assert word + [] == word && Collapse([]) == [];
    if blanks != [] {
      hide Collapse, Word, AllBlank;
      BlanksCollapse(blanks, rest);
      WordStays(word, blanks + rest);
    }
  }

  lemma {:induction false} WordStays(word: string, rest: string)
    requires Word(word)
    ensures Collapse(word + rest) == word + Collapse(rest)
  {
    if word == [] {
      assert word + rest == rest;
    } else {
      assert (word + rest)[1..] == word[1..] + rest;
      WordStays(word[1..], rest);
    }
  }

  lemma BlanksCollapse(blanks: string, rest: string)
    requires blanks != [] && AllBlank(blanks) && (rest != [] ==> !IsBlank(rest[0]))
    ensures Collapse(blanks + rest) == " " + Collapse(rest)
  {
    assert (blanks + rest)[1..] == blanks[1..] + rest;
    BlanksDropped(blanks[1..], rest);
  }

  lemma {:induction false} BlanksDropped(blanks: string, rest: string)
    requires AllBlank(blanks) && (rest != [] ==> !IsBlank(rest[0]))
    ensures DropBlanks(blanks + rest) == rest
  {
    if blanks == [] {
      assert blanks + rest == rest;
    } else {
      assert (blanks + rest)[1..] == blanks[1..] + rest;
      BlanksDropped(blanks[1..], rest);
    }
  }

  /** Every text is of that form. */
  lemma {:induction false} CutAtBlanks(s: string) returns (word: string, blanks: string, rest: string)
    ensures s == word + blanks + rest && Word(word) && AllBlank(blanks)
    ensures rest != [] ==> blanks != [] && !IsBlank(rest[0])
  {
    if s == [] {
      word, blanks, rest := [], [], [];
    } else if IsBlank(s[0]) {
      rest := DropBlanks(s);
      blanks := DroppedBlanks(s);
      word := [];
    } else {
      word, blanks, rest := CutAtBlanks(s[1..]);
      word := [s[0]] + word;
      assert s == [s[0]] + s[1..];
    }
  }

  lemma {:induction false} DroppedBlanks(s: string) returns (blanks: string)
    ensures s == blanks + DropBlanks(s) && AllBlank(blanks)
    ensures s != [] && IsBlank(s[0]) ==> blanks != []
  {
    blanks := [];
    if s != [] && IsBlank(s[0]) {
      blanks := DroppedBlanks(s[1..]);
      assert s == [s[0]] + blanks + DropBlanks(s);
      blanks := [s[0]] + blanks;
    }
  }

  /** Blanks are single spaces. */
  predicate Tidy(s: string) {
    && (forall i | 0 <= i < |s| :: IsBlank(s[i]) ==> s[i] == ' ')
    && (forall i | 0 <= i < |s| - 1 :: !(IsBlank(s[i]) && IsBlank(s[i + 1])))
  }

  lemma {:induction false} CollapseIsTidy(s: string)
    ensures Tidy(Collapse(s))
    ensures s != [] && !IsBlank(s[0]) ==> Collapse(s) != [] && Collapse(s)[0] == s[0]
    decreases |s|
  {
    if s == [] {
    } else if IsBlank(s[0]) {
      var rest := DropBlanks(s[1..]);
      CollapseIsTidy(rest);
      var c := Collapse(rest);
      assert c != [] ==> !IsBlank(c[0]) by { if rest == [] { assert c == []; } }
      forall i | 0 <= i < |c| ensures Collapse(s)[i + 1] == c[i] {}
    } else {
      CollapseIsTidy(s[1..]);
      var c := Collapse(s[1..]);
      forall i | 0 <= i < |c| ensures Collapse(s)[i + 1] == c[i] {}
    }
  }

  lemma {:induction false} TidyStays(s: string)
    requires Tidy(s)
    ensures Collapse(s) == s
  {
    if s != [] {
      var rest := s[1..];
      forall i | 0 <= i < |rest| ensures rest[i] == s[i + 1] {}
      TidyStays(rest);
      if IsBlank(s[0]) {
        assert rest != [] ==> !IsBlank(rest[0]) by { if rest != [] { assert s[1] == rest[0]; } }
        assert DropBlanks(rest) == rest;
      }
    }
  }

  /** What is left of a tidy text at its ends' trimming is tidy, and cannot be trimmed further. */
  lemma TrimmedTidy(c: string)
    requires Tidy(c)
    ensures Tidy(TrimSpace(c)) && TrimSpace(TrimSpace(c)) == TrimSpace(c)
  {
    hide Tidy, TrimLeft, TrimRight;
    var l := TrimLeft(c);
    var t := TrimRight(l);
    TrimLeftIs(c);
    TrimRightIs(l);
    var k := |c| - |l|;
    assert t == c[k..k + |t|];
    SliceIsTidy(c, k, k + |t|);
    if t != [] { assert t[0] == l[0]; }
    NothingToTrim(t);
  }

  lemma SliceIsTidy(s: string, from: nat, to: nat)
    requires Tidy(s) && from <= to <= |s|
    ensures Tidy(s[from..to])
  {
    forall i | 0 <= i < to - from ensures s[from..to][i] == s[from + i] {}
  }

  lemma NothingToTrim(t: string)
    requires t != [] ==> !IsSpace(t[0]) && !IsSpace(t[|t| - 1])
    ensures TrimLeft(t) == t && TrimRight(t) == t
  {
  }

  /** Trimming a string twice is trimming it once. */
  lemma TrimStringIdempotent(s: string)
    ensures TrimString(TrimString(s)) == TrimString(s)
  {
    hide Tidy, Collapse, TrimSpace;
    CollapseIsTidy(s);
    TrimmedTidy(Collapse(s));
    TidyStays(TrimString(s));
  }

  // ---------------------------------------------------------------- trees

  /** A JSON value; members keep their order. */
  datatype Tree =
    | Null
    | Bool(b: bool)
    | Number(text: string)
    | String(s: string)
    | Array(items: seq<Tree>)
    | Object(members: seq<Member>)

  datatype Member = Member(key: string, value: Tree)

  function Tokens(v: Tree): seq<Token> {
    match v
    case Null => [NullToken]
    case Bool(b) => [BoolToken(b)]
    case Number(text) => [NumberToken(text)]
    case String(s) => [StringToken(s)]
    case Array(items) => [OpenArray] + ItemTokens(items) + [CloseArray]
    case Object(members) => [OpenObject] + MemberTokens(members) + [CloseObject]
  }

  function ItemTokens(items: seq<Tree>): seq<Token> {
    if items == [] then [] else Tokens(items[0]) + ItemTokens(items[1..])
  }

  function MemberTokens(members: seq<Member>): seq<Token> {
    if members == [] then []
    else [StringToken(members[0].key)] + Tokens(members[0].value) + MemberTokens(members[1..])
  }

  function RenderBool(b: bool): string {
    if b then "1" else "0"
  }

  /** The text that is hashed. */
  function Render(v: Tree): string {
    match v
    case Null => ""
    case Bool(b) => RenderBool(b)
    case Number(text) => text
    case String(s) => TrimString(s)
    case Array(items) => "[" + Join(RenderItems(items)) + "]"
    case Object(members) => "{" + Join(RenderMembers(members)) + "}"
  }

  function RenderItems(items: seq<Tree>): seq<string> {
    if items == [] then [] else [Render(items[0])] + RenderItems(items[1..])
  }

  function RenderMembers(members: seq<Member>): seq<string> {
    if members == [] then []
    else [members[0].key + ":" + Render(members[0].value)] + RenderMembers(members[1..])
  }

  /** The text of each kind of value; the texts of items and of members stand in their order with commas
      between them. */
  lemma RenderIs(v: Tree)
    ensures v.Null? ==> Render(v) == ""
    ensures v.Bool? ==> Render(v) == if v.b then "1" else "0"
    ensures v.Number? ==> Render(v) == v.text
    ensures v.String? ==> Render(v) == TrimSpace(Collapse(v.s))
    ensures v.Array? ==>
              Render(v) == "[" + Join(seq(|v.items|, i requires 0 <= i < |v.items| => Render(v.items[i]))) + "]"
    ensures v.Object? ==>
              Render(v) == "{" + Join(seq(|v.members|, i requires 0 <= i < |v.members| =>
                                            v.members[i].key + ":" + Render(v.members[i].value))) + "}"
  {
    hide Join, TrimSpace, Collapse;
    match v
    case Array(items) =>
      ItemTexts(items);
      assert RenderItems(items) == seq(|items|, i requires 0 <= i < |items| => Render(items[i]));
    case Object(members) =>
      MemberTexts(members);
      assert RenderMembers(members)
          == seq(|members|, i requires 0 <= i < |members| => members[i].key + ":" + Render(members[i].value));
    case _ =>
  }

  lemma {:induction false} ItemTexts(items: seq<Tree>)
    ensures |RenderItems(items)| == |items|
    ensures forall i | 0 <= i < |items| :: RenderItems(items)[i] == Render(items[i])
  {
    hide Render;
    if items != [] {
      ItemTexts(items[1..]);
      forall i | 0 < i < |items| ensures RenderItems(items)[i] == Render(items[i]) {
        assert items[1..][i - 1] == items[i];
      }
    }
  }

  lemma {:induction false} MemberTexts(members: seq<Member>)
    ensures |RenderMembers(members)| == |members|
    ensures forall i | 0 <= i < |members| ::
              RenderMembers(members)[i] == members[i].key + ":" + Render(members[i].value)
  {
    hide Render;
    if members != [] {
      MemberTexts(members[1..]);
      forall i | 0 < i < |members|
        ensures RenderMembers(members)[i] == members[i].key + ":" + Render(members[i].value)
      {
        assert members[1..][i - 1] == members[i];
      }
    }
  }

  // ---------------------------------------------------------------- reading a token stream

  /** A text and the tokens after it. */
  datatype Read<T> = Read(value: T, rest: seq<Token>)

  /** Whether another element follows in the current object or array. */
  predicate More(ts: seq<Token>) {
    ts != [] && ts[0] != CloseObject && ts[0] != CloseArray
  }

  /** Parts read so far in front of what is still to come. */
  function Prepend(parts: seq<string>, r: Result<Read<seq<string>>, Error>): Result<Read<seq<string>>, Error> {
    if r.Err? then r else Ok(Read(parts + r.value.value, r.value.rest))
  }

  lemma PrependNone(r: Result<Read<seq<string>>, Error>)
    ensures Prepend([], r) == r
  {
    if r.Ok? { assert [] + r.value.value == r.value.value; }
  }

  lemma PrependMore(parts: seq<string>, part: string, r: Result<Read<seq<string>>, Error>)
    ensures Prepend(parts, Prepend([part], r)) == Prepend(parts + [part], r)
  {
    if r.Ok? { assert parts + ([part] + r.value.value) == parts + [part] + r.value.value; }
  }

  lemma PrependEnd(parts: seq<string>, ts: seq<Token>)
    ensures Prepend(parts, EndOf(ts)) == if ts == [] then Err(Truncated) else Ok(Read(parts, ts[1..]))
  {
    assert parts + [] == parts;
  }

  /** What reading one value from the stream gives. */
  function ReadToken(ts: seq<Token>): (r: Result<Read<string>, Error>)
    ensures r.Ok? ==> |r.value.rest| < |ts|
    decreases |ts|, 0
  {
    if ts == [] then Err(Truncated) else
    var rest := ts[1..];
    match ts[0]
    case OpenObject =>
      var m := ReadMembers(rest);
      if m.Err? then Err(m.error) else Ok(Read("{" + Join(m.value.value) + "}", m.value.rest))
    case OpenArray =>
      var m := ReadItems(rest);
      if m.Err? then Err(m.error) else Ok(Read("[" + Join(m.value.value) + "]", m.value.rest))
    case CloseObject => Err(UnexpectedDelimiter)
    case CloseArray => Err(UnexpectedDelimiter)
    case StringToken(s) => Ok(Read(TrimString(s), rest))
    case NumberToken(text) => Ok(Read(text, rest))
    case BoolToken(b) => Ok(Read(RenderBool(b), rest))
    case NullToken => Ok(Read("", rest))
  }

  /** The rest of an array; the token that ends it is consumed. */
  function ReadItems(ts: seq<Token>): (r: Result<Read<seq<string>>, Error>)
    ensures r.Ok? ==> |r.value.rest| < |ts|
    decreases |ts|, 1
  {
    if !More(ts) then EndOf(ts) else
    var first := ReadToken(ts);
    if first.Err? then Err(first.error) else
    Prepend([first.value.value], ReadItems(first.value.rest))
  }

  function ReadMembers(ts: seq<Token>): (r: Result<Read<seq<string>>, Error>)
    ensures r.Ok? ==> |r.value.rest| < |ts|
    decreases |ts|, 1
  {
    if !More(ts) then EndOf(ts) else
    if !ts[0].StringToken? then Err(KeyNotString) else
    var first := ReadToken(ts[1..]);
    if first.Err? then Err(first.error) else
    Prepend([ts[0].s + ":" + first.value.value], ReadMembers(first.value.rest))
  }

  function EndOf(ts: seq<Token>): (r: Result<Read<seq<string>>, Error>)
    ensures r.Ok? ==> |r.value.rest| < |ts|
  {
    if ts == [] then Err(Truncated) else Ok(Read([], ts[1..]))
  }

  /** A decoder hands out one token after the other. */
  class Decoder {
    const tokens: seq<Token>
    var pos: nat

    constructor (tokens: seq<Token>)
      ensures Valid() && this.tokens == tokens && Rest() == tokens
    {
      this.tokens := tokens;
      pos := 0;
    }

    predicate Valid()
      reads this
    {
      pos <= |tokens|
    }

    function Rest(): seq<Token>
      requires Valid()
      reads this
    {
      tokens[pos..]
    }

    method Token() returns (t: Option<Token>)
      requires Valid()
      modifies this
      ensures Valid()
      ensures old(Rest()) == [] ==> t == None && Rest() == []
      ensures old(Rest()) != [] ==> t == Some(old(Rest())[0]) && Rest() == old(Rest())[1..]
    {
      if pos == |tokens| {
        return None;
      }
      pos := pos + 1;
      return Some(tokens[pos - 1]);
    }

    /** Reads one value; the stream then goes on after it. */
    method StringifyToken() returns (r: Result<string, Error>)
      requires Valid()
      modifies this
      ensures Valid() && |Rest()| <= |old(Rest())|
      ensures match ReadToken(old(Rest()))
              case Err(e) => r == Err(e)
              case Ok(read) => r == Ok(read.value) && Rest() == read.rest
      decreases |Rest()|, 0
    {
      hide TrimString;
      var tok := Token();
      if tok.None? {
        return Err(Truncated);
      }
      match tok.value {
        case OpenObject => r := StringifyObject();
        case OpenArray => r := StringifyArray();
        case CloseObject => return Err(UnexpectedDelimiter);
        case CloseArray => return Err(UnexpectedDelimiter);
        case StringToken(s) => return Ok(TrimString(s));
        case NumberToken(text) => return Ok(text);
        case BoolToken(b) => return Ok(if b then "1" else "0");
        case NullToken => return Ok("");
      }
    }

    method StringifyArray() returns (r: Result<string, Error>)
      requires Valid()
      modifies this
      ensures Valid() && |Rest()| <= |old(Rest())|
      ensures match ReadItems(old(Rest()))
              case Err(e) => r == Err(e)
              case Ok(read) => r == Ok("[" + Join(read.value) + "]") && Rest() == read.rest
      decreases |Rest()|, 1
    {
      hide Join;
      var parts: seq<string> := [];
      PrependNone(ReadItems(Rest()));
      while More(Rest())
        invariant Valid() && |Rest()| <= |old(Rest())|
        invariant ReadItems(old(Rest())) == Prepend(parts, ReadItems(Rest()))
        decreases |Rest()|
      {
        var val := StringifyToken();
        if val.Err? {
          return val;
        }
        PrependMore(parts, val.value, ReadItems(Rest()));
        parts := parts + [val.value];
      }
      PrependEnd(parts, Rest());
      var tok := Token();
      if tok.None? {
        return Err(Truncated);
      }
      return Ok("[" + Join(parts) + "]");
    }

    method StringifyObject() returns (r: Result<string, Error>)
      requires Valid()
      modifies this
      ensures Valid() && |Rest()| <= |old(Rest())|
      ensures match ReadMembers(old(Rest()))
              case Err(e) => r == Err(e)
              case Ok(read) => r == Ok("{" + Join(read.value) + "}") && Rest() == read.rest
      decreases |Rest()|, 1
    {
      hide Join;
      var parts: seq<string> := [];
      PrependNone(ReadMembers(Rest()));
      while More(Rest())
        invariant Valid() && |Rest()| <= |old(Rest())|
        invariant ReadMembers(old(Rest())) == Prepend(parts, ReadMembers(Rest()))
        decreases |Rest()|
      {
        var keyTok := Token();
        if !keyTok.value.StringToken? {
          return Err(KeyNotString);
        }
        var val := StringifyToken();
        if val.Err? {
          return val;
        }
        PrependMore(parts, keyTok.value.s + ":" + val.value, ReadMembers(Rest()));
        parts := parts + [keyTok.value.s + ":" + val.value];
      }
      PrependEnd(parts, Rest());
      var tok := Token();
      if tok.None? {
        return Err(Truncated);
      }
      return Ok("{" + Join(parts) + "}");
    }
  }

  // ---------------------------------------------------------------- reading a tree

  /** Reading the tokens of a tree gives its text and consumes exactly its tokens, whatever follows. */
  lemma {:induction false} ReadTree(v: Tree, rest: seq<Token>)
    ensures ReadToken(Tokens(v) + rest) == Ok(Read(Render(v), rest))
    ensures More(Tokens(v))
  {
    hide Join, ReadItems, ReadMembers, ItemTokens, MemberTokens, RenderItems, RenderMembers, TrimString;
    match v
    case Array(items) =>
      ReadItemsOf(items, rest);
      assert Tokens(v) + rest == [OpenArray] + (ItemTokens(items) + ([CloseArray] + rest));
      ReadOpen(OpenArray, ItemTokens(items) + ([CloseArray] + rest));
    case Object(members) =>
      ReadMembersOf(members, rest);
      assert Tokens(v) + rest == [OpenObject] + (MemberTokens(members) + ([CloseObject] + rest));
      ReadOpen(OpenObject, MemberTokens(members) + ([CloseObject] + rest));
    case _ =>
      assert (Tokens(v) + rest)[1..] == rest;
  }

  lemma ReadOpen(open: Token, ts: seq<Token>)
    requires open == OpenArray || open == OpenObject
    ensures open == OpenArray && ReadItems(ts).Ok? ==>
              ReadToken([open] + ts) == Ok(Read("[" + Join(ReadItems(ts).value.value) + "]", ReadItems(ts).value.rest))
    ensures open == OpenObject && ReadMembers(ts).Ok? ==>
              ReadToken([open] + ts)
              == Ok(Read("{" + Join(ReadMembers(ts).value.value) + "}", ReadMembers(ts).value.rest))
  {
    hide Join;
    assert ([open] + ts)[1..] == ts;
  }

  lemma {:induction false} ReadItemsOf(items: seq<Tree>, rest: seq<Token>)
    ensures ReadItems(ItemTokens(items) + ([CloseArray] + rest)) == Ok(Read(RenderItems(items), rest))
  {
    var ts := ItemTokens(items) + ([CloseArray] + rest);
    if items == [] {
      assert ts == [CloseArray] + rest && ts[1..] == rest;
    } else {
      var after := ItemTokens(items[1..]) + ([CloseArray] + rest);
      assert ts == Tokens(items[0]) + after;
      ReadTree(items[0], after);
      ReadItemsOf(items[1..], rest);
    }
  }

  lemma {:induction false} ReadMembersOf(members: seq<Member>, rest: seq<Token>)
    ensures ReadMembers(MemberTokens(members) + ([CloseObject] + rest)) == Ok(Read(RenderMembers(members), rest))
  {
    var ts := MemberTokens(members) + ([CloseObject] + rest);
    if members == [] {
      assert ts == [CloseObject] + rest && ts[1..] == rest;
    } else {
      var after := MemberTokens(members[1..]) + ([CloseObject] + rest);
      assert ts == [StringToken(members[0].key)] + (Tokens(members[0].value) + after);
      assert ts[1..] == Tokens(members[0].value) + after;
      ReadTree(members[0].value, after);
      ReadMembersOf(members[1..], rest);
    }
  }

  /** A stream that ends inside a tree gives no text. */
  lemma {:induction false} CutTreeFails(v: Tree, n: nat)
    requires n < |Tokens(v)|
    ensures ReadToken(Tokens(v)[..n]) == Err(Truncated)
    decreases v, 0
  {
    hide Join, ReadItems, ReadMembers, ItemTokens, MemberTokens, TrimString;
    if n > 0 {
      match v
      case Array(items) =>
        CutItemsFail(items, n - 1);
        assert Tokens(v)[..n] == [OpenArray] + ItemTokens(items)[..n - 1];
        assert Tokens(v)[..n][1..] == ItemTokens(items)[..n - 1];
      case Object(members) =>
        CutMembersFail(members, n - 1);
        assert Tokens(v)[..n] == [OpenObject] + MemberTokens(members)[..n - 1];
        assert Tokens(v)[..n][1..] == MemberTokens(members)[..n - 1];
      case _ =>
    }
  }

  lemma {:induction false} CutItemsFail(items: seq<Tree>, n: nat)
    requires n <= |ItemTokens(items)|
    ensures ReadItems(ItemTokens(items)[..n]) == Err(Truncated)
    decreases items, 1
  {
    if n > 0 {
      var first, rest := Tokens(items[0]), ItemTokens(items[1..]);
      hide Tokens, ReadToken, Join, TrimString;
      ReadTree(items[0], []);
      if n < |first| {
        assert (first + rest)[..n] == first[..n];
        assert More(first[..n]) by { assert first[..n][0] == first[0]; }
        CutTreeFails(items[0], n);
      } else {
        assert (first + rest)[..n] == first + rest[..n - |first|];
        assert More(first + rest[..n - |first|]) by { assert (first + rest)[0] == first[0]; }
        ReadTree(items[0], rest[..n - |first|]);
        CutItemsFail(items[1..], n - |first|);
      }
    }
  }

  lemma {:induction false} CutMembersFail(members: seq<Member>, n: nat)
    requires n <= |MemberTokens(members)|
    ensures ReadMembers(MemberTokens(members)[..n]) == Err(Truncated)
    decreases members, 1
  {
    if n > 0 {
      var key, first, rest := [StringToken(members[0].key)], Tokens(members[0].value), MemberTokens(members[1..]);
      hide Tokens, ReadToken, Join, TrimString;
      var ts := MemberTokens(members)[..n];
      assert ts[0] == key[0];
      if n < 1 + |first| {
        assert ts[1..] == first[..n - 1];
        CutTreeFails(members[0].value, n - 1);
      } else {
        assert ts[1..] == first + rest[..n - 1 - |first|];
        ReadTree(members[0].value, rest[..n - 1 - |first|]);
        CutMembersFail(members[1..], n - 1 - |first|);
      }
    }
  }

  // ---------------------------------------------------------------- what the text does not tell

  /** The tree with the white space of its string values normalised. */
  function Normalize(v: Tree): Tree {
    match v
    case String(s) => String(TrimString(s))
    case Array(items) => Array(NormalizeItems(items))
    case Object(members) => Object(NormalizeMembers(members))
    case _ => v
  }

  function NormalizeItems(items: seq<Tree>): seq<Tree> {
    if items == [] then [] else [Normalize(items[0])] + NormalizeItems(items[1..])
  }

  function NormalizeMembers(members: seq<Member>): seq<Member> {
    if members == [] then []
    else [Member(members[0].key, Normalize(members[0].value))] + NormalizeMembers(members[1..])
  }

  lemma {:induction false} NormalizedRendersTheSame(v: Tree)
    ensures Render(Normalize(v)) == Render(v)
  {
    hide TrimString;
    match v
    case String(s) => TrimStringIdempotent(s);
    case Array(items) => NormalizedItems(items);
    case Object(members) => NormalizedMembers(members);
    case _ =>
  }

  lemma {:induction false} NormalizedItems(items: seq<Tree>)
    ensures RenderItems(NormalizeItems(items)) == RenderItems(items)
  {
    if items != [] {
      NormalizedRendersTheSame(items[0]);
      NormalizedItems(items[1..]);
      assert NormalizeItems(items)[1..] == NormalizeItems(items[1..]);
    }
  }

  lemma {:induction false} NormalizedMembers(members: seq<Member>)
    ensures RenderMembers(NormalizeMembers(members)) == RenderMembers(members)
  {
    if members != [] {
      NormalizedRendersTheSame(members[0].value);
      NormalizedMembers(members[1..]);
      assert NormalizeMembers(members)[1..] == NormalizeMembers(members[1..]);
    }
  }
}
