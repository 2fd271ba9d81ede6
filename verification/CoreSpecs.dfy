/** What a request says about the core: nothing, a core to download, or something invalid. */
module CoreSpecs {
  import opened JsonValues
  import opened Wrappers

  datatype CoreSpec = CoreSpec(url: string, sha256: string)

  datatype CoreRequest = Invalid | NoCore | Wanted(spec: CoreSpec)

  /** A parsed URL; `text` is how it is written again. */
  datatype Url = Url(scheme: string, host: string, text: string)

  type UrlParser = string -> Option<Url>

  predicate IsHex(c: char) {
    '0' <= c <= '9' || 'a' <= c <= 'f' || 'A' <= c <= 'F'
  }

  predicate IsDigest(s: string) {
    |s| == 64 && forall c <- s :: IsHex(c)
  }

  method IsSHA256(value: string) returns (ok: bool)
    ensures ok <==> IsDigest(value)
  {
    if |value| != 64 {
      return false;
    }
    for i := 0 to |value|
      invariant forall j | 0 <= j < i :: IsHex(value[j])
    {
      if !IsHex(value[i]) {
        assert value[i] in value;
        return false;
      }
    }
    return true;
  }

  function LowerChar(c: char): char {
    if 'A' <= c <= 'Z' then c - 'A' + 'a' else c
  }

  function ToLower(s: string): (r: string)
    ensures |r| == |s| && forall i | 0 <= i < |s| :: r[i] == LowerChar(s[i])
  {
    seq(|s|, i requires 0 <= i < |s| => LowerChar(s[i]))
  }

  predicate IsAbsoluteHttps(url: Option<Url>) {
    url.Some? && url.value.scheme == "https" && url.value.host != ""
  }

  function CoreSection(geodata: Json): Json {
    Get(FieldsFrom(geodata), "core")
  }

  /** The section names a core: an HTTPS URL and a digest. */
  predicate NamesCore(core: Json, parse: UrlParser) {
    && core.JObj?
    && Get(core.fields, "url").JStr? && IsAbsoluteHttps(parse(Get(core.fields, "url").s))
    && Get(core.fields, "sha256").JStr? && IsDigest(Get(core.fields, "sha256").s)
  }

  /** What a request amounts to: no core if there is no geodata or no core section in it; a core if the
      section names one. */
  predicate Requests(geodata: Json, parse: UrlParser, request: CoreRequest) {
    && (request.NoCore? <==> geodata.JNull? || (geodata.JObj? && CoreSection(geodata).JNull?))
    && (request.Wanted? <==> NamesCore(CoreSection(geodata), parse))
    && (request.Wanted? ==>
          var core := CoreSection(geodata).fields;
          request.spec == CoreSpec(parse(Get(core, "url").s).value.text, ToLower(Get(core, "sha256").s)))
  }

  method ParseCoreSpec(geodata: Json, parse: UrlParser) returns (request: CoreRequest)
    ensures Requests(geodata, parse, request)
  {
    if geodata.JNull? {
      return NoCore;
    }
    if !geodata.JObj? {
      return Invalid;
    }
    var raw := Get(geodata.fields, "core");
    if raw.JNull? {
      return NoCore;
    }
    if !raw.JObj? {
      return Invalid;
    }
    var rawUrl := Get(raw.fields, "url");
    if !rawUrl.JStr? {
      return Invalid;
    }
    var parsed := parse(rawUrl.s);
    if parsed.None? || parsed.value.scheme != "https" || parsed.value.host == "" {
      return Invalid;
    }
    var sha := Get(raw.fields, "sha256");
    if !sha.JStr? {
      return Invalid;
    }
    var ok := IsSHA256(sha.s);
    if !ok {
      return Invalid;
    }
    return Wanted(CoreSpec(parsed.value.text, ToLower(sha.s)));
  }

  /** A request amounts to one thing. */
  lemma RequestIsUnique(geodata: Json, parse: UrlParser, a: CoreRequest, b: CoreRequest)
    requires Requests(geodata, parse, a) && Requests(geodata, parse, b)
    ensures a == b
  {
  }

  /** What a request has to hold to name a core. */
  lemma WantedIff(geodata: Json, parse: UrlParser, request: CoreRequest)
    requires Requests(geodata, parse, request)
    ensures request.Wanted?
       <==> && geodata.JObj? && Get(geodata.fields, "core").JObj?
            && var core := Get(geodata.fields, "core").fields;
            && Get(core, "url").JStr? && Get(core, "sha256").JStr?
            && var url, sha := parse(Get(core, "url").s), Get(core, "sha256").s;
            && url.Some? && url.value.scheme == "https" && url.value.host != ""
            && |sha| == 64
            && forall i | 0 <= i < 64 :: '0' <= sha[i] <= '9' || 'a' <= sha[i] <= 'f' || 'A' <= sha[i] <= 'F'
  {
    var sha := Get(FieldsFrom(CoreSection(geodata)), "sha256");
    if sha.JStr? && |sha.s| == 64 {
      assert IsDigest(sha.s) <==> forall i | 0 <= i < 64 :: IsHex(sha.s[i]) by {
        assert forall i | 0 <= i < 64 :: sha.s[i] in sha.s;
      }
    }
  }

  predicate LowerDigest(s: string) {
    |s| == 64 && forall c <- s :: '0' <= c <= '9' || 'a' <= c <= 'f'
  }

  /** Digests that differ in case only ask for the same core, and the one compared with a download is in
      lower case. */
  lemma DigestCase(s: string, t: string)
    requires IsDigest(s) && |t| == 64 && forall i | 0 <= i < 64 :: LowerChar(s[i]) == LowerChar(t[i])
    ensures IsDigest(t) && ToLower(s) == ToLower(t) && LowerDigest(ToLower(s))
  {
    forall c | c in t ensures IsHex(c) {
      var i :| 0 <= i < 64 && t[i] == c;
      assert IsHex(s[i]) by { assert s[i] in s; }
    }
    forall c | c in ToLower(s) ensures '0' <= c <= '9' || 'a' <= c <= 'f' {
      var i :| 0 <= i < 64 && ToLower(s)[i] == c;
      assert s[i] in s;
    }
  }
}
