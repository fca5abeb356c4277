/**
 * The browser client's authentication state: the token kept in the
 * browser's local storage under "authToken", the bearer header of the HTTP
 * client, and the principal rebuilt from the token payload without checking
 * its signature.
 *
 * The JSON reader is the parameter `parseJson`: it yields the top-level
 * document of the payload bytes, or None when the bytes are not JSON.
 * Each top-level value is given as its kind with the text of its elements
 * (the element's `ToString()`).
 */
module ClientAuth {
  import opened Wrappers
  import opened Text
  import opened Security
  import opened Base64

  const TokenKey := "authToken"

  // ---- The plausibility test ----

  /** A non-blank token of three dot-separated parts whose first two parts are longer than
      five characters. */
  predicate IsProbablyJwt(token: Option<string>) {
    && !IsNullOrWhiteSpace(token)
    && var parts := Split(token.value, '.');
       |parts| == 3 && |parts[0]| > 5 && |parts[1]| > 5
  }

  /** Plausible tokens are exactly three dot-free parts, the first two longer than five
      characters; a missing token is not plausible. */
  lemma ProbablyJwtShape(t: string)
    ensures !IsProbablyJwt(None)
    ensures IsProbablyJwt(Some(t)) <==>
      exists a, b, c :: '.' !in a && '.' !in b && '.' !in c && |a| > 5 && |b| > 5 && t == a + "." + b + "." + c
  {
    if IsProbablyJwt(Some(t)) {
      ThreePartSplit(t, '.');
      JoinSplit(t, '.');
      var parts := Split(t, '.');
      var a, b, c :| '.' !in a && '.' !in b && '.' !in c && t == a + ['.'] + b + ['.'] + c;
      SplitThree(a, b, c, '.');
      assert a == parts[0] && b == parts[1];
      assert a + "." + b + "." + c == a + ['.'] + b + ['.'] + c;
    }
    if exists a, b, c :: '.' !in a && '.' !in b && '.' !in c && |a| > 5 && |b| > 5 && t == a + "." + b + "." + c {
      var a, b, c :| '.' !in a && '.' !in b && '.' !in c && |a| > 5 && |b| > 5 && t == a + "." + b + "." + c;
      SplitThree(a, b, c, '.');
      assert t[|a|] == '.' && !IsWhiteSpace('.');
    }
  }

  // ---- Decoding the payload segment ----

  /** The segment padded with '=' to a multiple of four characters, when its length allows. */
  function Repadded(s: string): (r: string)
    ensures |s| <= |r| && r[..|s|] == s
    ensures |s| % 4 != 1 <==> |r| % 4 == 0
  {
    if |s| % 4 == 2 then s + "==" else if |s| % 4 == 3 then s + "=" else s
  }

  /** The payload decoding as written: re-pad, then decode with the standard alphabet. A
      segment holding '-' or '_', the URL-safe characters, never decodes. */
  function ParseBase64WithoutPadding(s: string): (r: Option<seq<Byte>>)
    ensures r.Some? ==> '-' !in s && '_' !in s
  {
    var padded := Repadded(s);
    var r := Decode(padded);
    if r.Some? then
      DecodeAlphabet(padded);
      assert forall i :: 0 <= i < |s| ==> padded[i] == s[i];
      r
    else r
  }

  /** '-' and '_' turned back into '+' and '/'. */
  function UrlToStd(s: string): (r: string)
    ensures |r| == |s|
    ensures forall i :: 0 <= i < |s| ==> r[i] == (if s[i] == '-' then '+' else if s[i] == '_' then '/' else s[i])
  {
    seq(|s|, i requires 0 <= i < |s| => if s[i] == '-' then '+' else if s[i] == '_' then '/' else s[i])
  }

  /** The payload decoding as intended: base64url, translated to the standard alphabet
      before re-padding. */
  function ParseBase64UrlWithoutPadding(s: string): Option<seq<Byte>> {
    Decode(Repadded(UrlToStd(s)))
  }

  /** Translating a base64url text gives the standard text of the same groups. */
  lemma UrlToStdChars(vs: seq<Sextet>)
    ensures UrlToStd(UrlChars(vs)) == StdChars(vs)
  {
  }

  lemma GroupTextLength(n: nat)
    ensures (4 * (n / 3) + (if n % 3 == 0 then 0 else n % 3 + 1)) % 4 == (if n % 3 == 0 then 0 else n % 3 + 1)
  {
  }

  /** Re-padding the standard text of the groups gives the padded standard encoding. */
  lemma RepaddedGroups(b: seq<Byte>)
    ensures Repadded(StdChars(Sextets(b))) == Encode(b)
  {
    GroupTextLength(|b|);
  }

  /** The intended decoding undoes the base64url encoding of any payload. */
  lemma SegmentRoundTrip(b: seq<Byte>)
    ensures ParseBase64UrlWithoutPadding(EncodeUrl(b)) == Some(b)
  {
    UrlToStdChars(Sextets(b));
    RepaddedGroups(b);
    DecodeEncode(b);
  }

  /** On segments without '-' and '_' the two decodings agree. */
  lemma DecodingsAgree(s: string)
    requires '-' !in s && '_' !in s
    ensures ParseBase64UrlWithoutPadding(s) == ParseBase64WithoutPadding(s)
  {
    assert UrlToStd(s) == s;
  }

  /** The payload {"name":"Zoë"} as UTF-8 bytes. */
  const ZoePayload: seq<Byte> := [123, 34, 110, 97, 109, 101, 34, 58, 34, 90, 111, 195, 171, 34, 125]

  const ZoeSextets: seq<Sextet> := [30, 50, 9, 46, 24, 22, 53, 37, 8, 35, 40, 34, 22, 38, 63, 3, 42, 50, 9, 61]

  lemma SextetsOfGroup(g: seq<Byte>, rest: seq<Byte>)
    requires |g| == 3
    ensures Sextets(g + rest) == Sextets(g) + Sextets(rest)
  {
    assert (g + rest)[3..] == rest;
    assert g[3..] == [];
  }

  lemma SextetsOfThree(x: Byte, y: Byte, z: Byte)
    ensures Sextets([x, y, z]) == [x / 4, (x % 4) * 16 + y / 16, (y % 16) * 4 + z / 64, z % 64]
  {
    assert [x, y, z][3..] == [];
  }

  lemma ZoeGroupSextets()
    ensures Sextets([123, 34, 110]) == [30, 50, 9, 46] && Sextets([97, 109, 101]) == [24, 22, 53, 37]
    ensures Sextets([34, 58, 34]) == [8, 35, 40, 34] && Sextets([90, 111, 195]) == [22, 38, 63, 3]
    ensures Sextets([171, 34, 125]) == [42, 50, 9, 61]
  {
    SextetsOfThree(123, 34, 110);
    SextetsOfThree(97, 109, 101);
    SextetsOfThree(34, 58, 34);
    SextetsOfThree(90, 111, 195);
    SextetsOfThree(171, 34, 125);
  }

  lemma ZoePayloadSextets()
    ensures Sextets(ZoePayload) == ZoeSextets
  {
    var g0, g1, g2, g3, g4 := [123, 34, 110], [97, 109, 101], [34, 58, 34], [90, 111, 195], [171, 34, 125];
    assert ZoePayload == g0 + (g1 + (g2 + (g3 + g4)));
    SextetsOfGroup(g3, g4);
    SextetsOfGroup(g2, g3 + g4);
    SextetsOfGroup(g1, g2 + (g3 + g4));
    SextetsOfGroup(g0, g1 + (g2 + (g3 + g4)));
    ZoeGroupSextets();
    ZoeGroups();
  }

  lemma UrlCharsAppend(a: seq<Sextet>, b: seq<Sextet>)
    ensures UrlChars(a + b) == UrlChars(a) + UrlChars(b)
  {
  }

  lemma ZoeGroupText()
    ensures UrlChars([30, 50, 9, 46]) == "eyJu" && UrlChars([24, 22, 53, 37]) == "YW1l"
    ensures UrlChars([8, 35, 40, 34]) == "Ijoi" && UrlChars([22, 38, 63, 3]) == "Wm_D"
    ensures UrlChars([42, 50, 9, 61]) == "qyJ9"
  {
    assert UrlChar(30) == 'e' && UrlChar(50) == 'y' && UrlChar(9) == 'J' && UrlChar(46) == 'u';
    assert UrlChar(24) == 'Y' && UrlChar(22) == 'W' && UrlChar(53) == '1' && UrlChar(37) == 'l';
    assert UrlChar(8) == 'I' && UrlChar(35) == 'j' && UrlChar(40) == 'o' && UrlChar(34) == 'i';
    assert UrlChar(38) == 'm' && UrlChar(63) == '_' && UrlChar(3) == 'D';
    assert UrlChar(42) == 'q' && UrlChar(61) == '9';
  }

  lemma ZoeGroups()
    ensures ZoeSextets == [30, 50, 9, 46] + ([24, 22, 53, 37] + ([8, 35, 40, 34] + ([22, 38, 63, 3] + [42, 50, 9, 61])))
    ensures "eyJuYW1lIjoiWm_DqyJ9" == "eyJu" + ("YW1l" + ("Ijoi" + ("Wm_D" + "qyJ9")))
  {
  }

  lemma ZoeSegmentText()
    ensures EncodeUrl(ZoePayload) == "eyJuYW1lIjoiWm_DqyJ9"
  {
    ZoePayloadSextets();
    ZoeGroupText();
    ZoeGroups();
    UrlCharsAppend([22, 38, 63, 3], [42, 50, 9, 61]);
    UrlCharsAppend([8, 35, 40, 34], [22, 38, 63, 3] + [42, 50, 9, 61]);
    UrlCharsAppend([24, 22, 53, 37], [8, 35, 40, 34] + ([22, 38, 63, 3] + [42, 50, 9, 61]));
    UrlCharsAppend([30, 50, 9, 46], [24, 22, 53, 37] + ([8, 35, 40, 34] + ([22, 38, 63, 3] + [42, 50, 9, 61])));
  }

  lemma ZoeUnderscore(s: string)
    requires s == "eyJuYW1lIjoiWm_DqyJ9"
    ensures |s| == 20 && s[14] == '_'
  {
  }

  /** Its segment "eyJuYW1lIjoiWm_DqyJ9" holds '_': the decoding as written fails on it,
      the intended one gives the payload back. */
  lemma ZoeSegment()
    ensures ParseBase64WithoutPadding(EncodeUrl(ZoePayload)) == None
    ensures ParseBase64UrlWithoutPadding(EncodeUrl(ZoePayload)) == Some(ZoePayload)
  {
    ZoeSegmentText();
    ZoeUnderscore("eyJuYW1lIjoiWm_DqyJ9");
    UrlSegmentRejected(ZoePayload, 14);
  }

  /** A payload whose segment holds a URL-safe character is lost as written but not as intended. */
  lemma UrlSegmentRejected(b: seq<Byte>, i: nat)
    requires i < |EncodeUrl(b)| && EncodeUrl(b)[i] == '_'
    ensures ParseBase64WithoutPadding(EncodeUrl(b)) == None
    ensures ParseBase64UrlWithoutPadding(EncodeUrl(b)) == Some(b)
  {
    SegmentRoundTrip(b);
  }

  // ---- Claims from the payload ----

  /** A top-level value of the payload object. */
  datatype JsonValue = JsonNull | JsonScalar(text: string) | JsonArray(items: seq<string>)

  /** The payload document: the literal null, or an object with its members in order. */
  datatype JsonDocument = NullDocument | JsonObject(entries: seq<(string, JsonValue)>)

  function ItemClaims(claimType: string, items: seq<string>): (cs: seq<Claim>)
    ensures |cs| == |items| && forall i :: 0 <= i < |items| ==> cs[i] == Claim(claimType, items[i])
  {
    seq(|items|, i requires 0 <= i < |items| => Claim(claimType, items[i]))
  }

  /** The claim type of a member: a non-null member named "role" in any letter case becomes
      the role claim type; every other member keeps its name. */
  function MemberClaimType(key: string, v: JsonValue): string {
    if EqualsIgnoreCase(key, "role") && !v.JsonNull? then RoleClaimType else key
  }

  /** The claims of one member: one per array element, else one with the value's text
      ("" for null). */
  function MemberClaims(key: string, v: JsonValue): (cs: seq<Claim>)
    ensures forall i :: 0 <= i < |cs| ==> cs[i].claimType == MemberClaimType(key, v)
  {
    match v
    case JsonArray(items) => ItemClaims(MemberClaimType(key, v), items)
    case JsonScalar(t) => [Claim(MemberClaimType(key, v), t)]
    case JsonNull => [Claim(key, "")]
  }

  function ClaimsOf(entries: seq<(string, JsonValue)>): (cs: seq<Claim>)
  {
    if entries == [] then []
    else ClaimsOf(entries[..|entries| - 1]) + MemberClaims(entries[|entries| - 1].0, entries[|entries| - 1].1)
  }

  /** The claims of every member are among the claims of the object. */
  lemma {:induction false} MemberClaimsIncluded(entries: seq<(string, JsonValue)>, k: nat)
    requires k < |entries|
    ensures forall c :: c in MemberClaims(entries[k].0, entries[k].1) ==> c in ClaimsOf(entries)
    decreases |entries|
  {
    if k < |entries| - 1 {
      MemberClaimsIncluded(entries[..|entries| - 1], k);
    }
  }

  lemma ClaimsOfPrefix(entries: seq<(string, JsonValue)>, k: nat)
    requires k < |entries|
    ensures ClaimsOf(entries[..k + 1]) == ClaimsOf(entries[..k]) + MemberClaims(entries[k].0, entries[k].1)
  {
    assert entries[..k + 1][..k] == entries[..k];
  }

  lemma ItemClaimsPrefix(claimType: string, items: seq<string>, j: nat)
    requires j < |items|
    ensures ItemClaims(claimType, items[..j + 1]) == ItemClaims(claimType, items[..j]) + [Claim(claimType, items[j])]
  {
  }

  /** The claims, member by member, element by element. */
  method ExpandClaims(entries: seq<(string, JsonValue)>) returns (claims: seq<Claim>)
    ensures claims == ClaimsOf(entries)
  {
    claims := [];
    for k := 0 to |entries|
      invariant claims == ClaimsOf(entries[..k])
    {
      ClaimsOfPrefix(entries, k);
      var (key, value) := entries[k];
      var claimType := MemberClaimType(key, value);
      match value {
        case JsonArray(items) =>
          ghost var before := claims;
          for j := 0 to |items|
            invariant claims == before + ItemClaims(claimType, items[..j])
          {
            ItemClaimsPrefix(claimType, items, j);
            claims := claims + [Claim(claimType, items[j])];
          }
          assert items[..|items|] == items;
        case JsonScalar(t) =>
          claims := claims + [Claim(claimType, t)];
        case JsonNull =>
          claims := claims + [Claim(key, "")];
      }
    }
    assert entries[..|entries|] == entries;
  }

  /** The claims of decoded payload bytes: a null document gives no claims, bytes that are
      missing or not JSON are a failure. */
  function PayloadClaims(bytes: Option<seq<Byte>>, parseJson: seq<Byte> -> Option<JsonDocument>): Option<seq<Claim>> {
    match bytes
    case None => None
    case Some(b) =>
      match parseJson(b)
      case None => None
      case Some(NullDocument) => Some([])
      case Some(JsonObject(entries)) => Some(ClaimsOf(entries))
  }

  /** The claims of a token as written: the second dot-separated part decoded with the
      standard alphabet and read as JSON. A missing part or a payload segment holding '-'
      or '_' is a failure; any token it reads is read the same by the intended decoding. */
  function ParsedClaims(jwt: string, parseJson: seq<Byte> -> Option<JsonDocument>): (r: Option<seq<Claim>>)
    ensures r.Some? ==> |Split(jwt, '.')| >= 2 && '-' !in Split(jwt, '.')[1] && '_' !in Split(jwt, '.')[1]
    ensures r.Some? ==> ParsedClaimsIntended(jwt, parseJson) == r
  {
    var parts := Split(jwt, '.');
    if |parts| < 2 then None
    else
      var bytes := ParseBase64WithoutPadding(parts[1]);
      if bytes.Some? then
        DecodingsAgree(parts[1]);
        PayloadClaims(bytes, parseJson)
      else None
  }

  /** The claims of a token as intended: the payload segment decoded as base64url. */
  function ParsedClaimsIntended(jwt: string, parseJson: seq<Byte> -> Option<JsonDocument>): Option<seq<Claim>> {
    var parts := Split(jwt, '.');
    if |parts| < 2 then None
    else PayloadClaims(ParseBase64UrlWithoutPadding(parts[1]), parseJson)
  }

  /** `ParseClaimsFromJwt`. */
  method ParseClaimsFromJwt(jwt: string, parseJson: seq<Byte> -> Option<JsonDocument>) returns (r: Option<seq<Claim>>)
    ensures r == ParsedClaims(jwt, parseJson)
  {
    var parts := Split(jwt, '.');
    if |parts| < 2 {
      return None;
    }
    var bytes := ParseBase64WithoutPadding(parts[1]);
    if bytes.None? {
      return None;
    }
    var document := parseJson(bytes.value);
    match document {
      case None => r := None;
      case Some(NullDocument) => r := Some([]);
      case Some(JsonObject(entries)) =>
        var claims := ExpandClaims(entries);
        r := Some(claims);
    }
  }

  /** The principal of the client: authentication type "jwt", the default name and role
      claim types. */
  function ClientPrincipal(claims: seq<Claim>): (p: Principal)
    ensures IsAuthenticated(p) && p.roleClaimType == RoleClaimType
  {
    Principal(Some("jwt"), claims, NameClaimType, RoleClaimType)
  }

  /** The token the server issues: three base64url segments joined by dots. */
  function IssuedToken(header: seq<Byte>, payload: seq<Byte>, signature: seq<Byte>): string {
    EncodeUrl(header) + "." + EncodeUrl(payload) + "." + EncodeUrl(signature)
  }

  /** A token whose header and payload are base64url segments of at least five bytes is
      plausible, splits back into its segments, and the intended reading takes its claims
      from exactly its payload. */
  lemma IssuedTokenParses(header: seq<Byte>, payload: seq<Byte>, signature: seq<Byte>,
                          parseJson: seq<Byte> -> Option<JsonDocument>)
    requires |header| >= 5 && |payload| >= 5
    ensures var t := IssuedToken(header, payload, signature);
      && IsProbablyJwt(Some(t))
      && Split(t, '.') == [EncodeUrl(header), EncodeUrl(payload), EncodeUrl(signature)]
      && ParsedClaimsIntended(t, parseJson) == PayloadClaims(Some(payload), parseJson)
  {
    var h, p, s := EncodeUrl(header), EncodeUrl(payload), EncodeUrl(signature);
    assert '.' !in h && '.' !in p && '.' !in s by {
      forall v: Sextet ensures UrlChar(v) != '.' { }
    }
    SplitThree(h, p, s, '.');
    assert h + "." + p + "." + s == h + ['.'] + p + ['.'] + s;
    ProbablyJwtShape(h + "." + p + "." + s);
    SegmentRoundTrip(payload);
  }

  /** As written, an issued token is read as intended exactly when its payload segment
      holds neither '-' nor '_'; otherwise its claims are lost and the client stays
      anonymous. */
  lemma IssuedTokenAsWritten(header: seq<Byte>, payload: seq<Byte>, signature: seq<Byte>,
                             parseJson: seq<Byte> -> Option<JsonDocument>)
    requires |header| >= 5 && |payload| >= 5
    ensures var t := IssuedToken(header, payload, signature);
      && ('-' !in EncodeUrl(payload) && '_' !in EncodeUrl(payload) ==>
            ParsedClaims(t, parseJson) == ParsedClaimsIntended(t, parseJson))
      && ('-' in EncodeUrl(payload) || '_' in EncodeUrl(payload) ==>
            ParsedClaims(t, parseJson).None? && ClientState(Some(t), parseJson) == Anonymous)
  {
    IssuedTokenParses(header, payload, signature, parseJson);
    if '-' !in EncodeUrl(payload) && '_' !in EncodeUrl(payload) {
      DecodingsAgree(EncodeUrl(payload));
    }
  }

  /** A token carrying the payload {"name":"Zoë"} is plausible and readable as intended,
      but as written its claims are lost and the client is anonymous. */
  lemma ZoeToken(header: seq<Byte>, signature: seq<Byte>, parseJson: seq<Byte> -> Option<JsonDocument>)
    requires |header| >= 5
    ensures var t := IssuedToken(header, ZoePayload, signature);
      && IsProbablyJwt(Some(t))
      && ParsedClaimsIntended(t, parseJson) == PayloadClaims(Some(ZoePayload), parseJson)
      && ParsedClaims(t, parseJson).None?
      && ClientState(Some(t), parseJson) == Anonymous
  {
    IssuedTokenParses(header, ZoePayload, signature, parseJson);
    ZoeSegment();
  }

  /** A claim of the client principal is found by its own type and value. */
  lemma ClaimFound(cs: seq<Claim>, c: Claim)
    requires c in cs
    ensures HasClaim(ClientPrincipal(cs), c.claimType, c.value)
  {
    var j :| 0 <= j < |cs| && cs[j] == c;
    EqualsIgnoreCaseIsEquivalence(c.claimType, c.claimType, c.claimType);
    assert HasType(cs[j], c.claimType);
  }

  /** A "role" member, scalar or array, puts the client principal in each role it names. */
  lemma RoleMember(entries: seq<(string, JsonValue)>, k: nat, role: string)
    requires k < |entries| && EqualsIgnoreCase(entries[k].0, "role")
    requires entries[k].1 == JsonScalar(role) || (entries[k].1.JsonArray? && role in entries[k].1.items)
    ensures IsInRole(ClientPrincipal(ClaimsOf(entries)), role)
  {
    var (key, v) := entries[k];
    assert MemberClaimType(key, v) == RoleClaimType;
    MemberClaimsIncluded(entries, k);
    var c := Claim(RoleClaimType, role);
    if v.JsonArray? {
      var i :| 0 <= i < |v.items| && v.items[i] == role;
      assert MemberClaims(key, v) == ItemClaims(RoleClaimType, v.items);
      assert MemberClaims(key, v)[i] == c;
    } else {
      assert MemberClaims(key, v) == [c];
    }
    ClaimFound(ClaimsOf(entries), c);
  }

  /** A "HasPremium" member "true" satisfies the premium policy. */
  lemma PremiumMember(entries: seq<(string, JsonValue)>, k: nat)
    requires k < |entries| && entries[k] == (HasPremiumClaimType, JsonScalar("true"))
    ensures PremiumPolicy(ClientPrincipal(ClaimsOf(entries)))
  {
    DifferentLengthsDiffer(HasPremiumClaimType, "role");
    var c := Claim(HasPremiumClaimType, "true");
    assert MemberClaims(HasPremiumClaimType, JsonScalar("true")) == [c];
    MemberClaimsIncluded(entries, k);
    ClaimFound(ClaimsOf(entries), c);
  }

  /** A null "role" member is no role: it yields a claim of type "role" with value "". */
  lemma NullRoleMember()
    ensures ClaimsOf([("role", JsonNull)]) == [Claim("role", "")]
    ensures !IsInRole(ClientPrincipal(ClaimsOf([("role", JsonNull)])), "")
  {
    assert [("role", JsonNull)][..0] == [];
    DifferentLengthsDiffer("role", RoleClaimType);
  }

  // ---- The state the client publishes ----

  /** The principal the client derives from the stored token. */
  function ClientState(token: Option<string>, parseJson: seq<Byte> -> Option<JsonDocument>): (p: Principal)
    ensures IsAuthenticated(p) <==> IsProbablyJwt(token) && ParsedClaims(token.value, parseJson).Some?
  {
    if !IsProbablyJwt(token) then Anonymous
    else match ParsedClaims(token.value, parseJson)
         case None => Anonymous
         case Some(claims) => ClientPrincipal(claims)
  }

  class ApiAuthenticationStateProvider {
    /** The browser's local storage. */
    var storage: map<string, string>
    /** The bearer token of the HTTP client's default authorization header. */
    var authorization: Option<string>
    /** The states handed to subscribers, in order. */
    var published: seq<Principal>
    const parseJson: seq<Byte> -> Option<JsonDocument>

    function StoredToken(): (t: Option<string>)
      reads this`storage
      ensures t.Some? <==> TokenKey in storage
    {
      if TokenKey in storage then Some(storage[TokenKey]) else None
    }

    constructor (browserStorage: map<string, string>, parseJson: seq<Byte> -> Option<JsonDocument>)
      ensures storage == browserStorage && authorization.None? && published == []
      ensures this.parseJson == parseJson
    {
      storage := browserStorage;
      authorization := None;
      published := [];
      this.parseJson := parseJson;
    }

    /** Removes the token, drops the header and publishes the anonymous state. */
    method ClearToken()
      modifies this`storage, this`authorization, this`published
      ensures storage == old(storage) - {TokenKey} && authorization.None?
      ensures published == old(published) + [Anonymous]
    {
      storage := storage - {TokenKey};
      authorization := None;
      published := published + [Anonymous];
    }

    /** An implausible token yields the anonymous state and changes nothing; a plausible one
        becomes the bearer header, and if its claims cannot be read the token is cleared. */
    method GetAuthenticationState() returns (state: Principal)
      modifies this`storage, this`authorization, this`published
      ensures state == ClientState(old(StoredToken()), parseJson)
      ensures !IsProbablyJwt(old(StoredToken())) ==>
        storage == old(storage) && authorization == old(authorization) && published == old(published)
      ensures IsProbablyJwt(old(StoredToken())) && ParsedClaims(old(StoredToken()).value, parseJson).Some? ==>
        storage == old(storage) && authorization == old(StoredToken()) && published == old(published)
      ensures IsProbablyJwt(old(StoredToken())) && ParsedClaims(old(StoredToken()).value, parseJson).None? ==>
        storage == old(storage) - {TokenKey} && authorization.None? && published == old(published) + [Anonymous]
    {
      var token := StoredToken();
      if !IsProbablyJwt(token) {
        return Anonymous;
      }
      authorization := token;
      var claims := ParseClaimsFromJwt(token.value, parseJson);
      if claims.None? {
        ClearToken();
        return Anonymous;
      }
      state := ClientPrincipal(claims.value);
    }

    /** Stores the token, sets the header and publishes the state derived from it. */
    method SetToken(token: string)
      modifies this`storage, this`authorization, this`published
      ensures var state := ClientState(Some(token), parseJson);
        if IsProbablyJwt(Some(token)) && ParsedClaims(token, parseJson).None? then
          && storage == old(storage)[TokenKey := token] - {TokenKey} && authorization.None?
          && published == old(published) + [Anonymous, Anonymous]
        else
          && storage == old(storage)[TokenKey := token] && authorization == Some(token)
          && published == old(published) + [state]
    {
      storage := storage[TokenKey := token];
      authorization := Some(token);
      var state := GetAuthenticationState();
      published := published + [state];
    }

    /** Re-applies a stored plausible token and reports true, even when reading its claims
        then fails and clears it; a stored token that is implausible but not blank is
        cleared. */
    method TryRestore() returns (restored: bool)
      modifies this`storage, this`authorization, this`published
      ensures restored == IsProbablyJwt(old(StoredToken()))
      ensures !restored && IsNullOrWhiteSpace(old(StoredToken())) ==>
        storage == old(storage) && authorization == old(authorization) && published == old(published)
      ensures !restored && !IsNullOrWhiteSpace(old(StoredToken())) ==>
        storage == old(storage) - {TokenKey} && authorization.None? && published == old(published) + [Anonymous]
      ensures restored && ParsedClaims(old(StoredToken()).value, parseJson).None? ==>
        storage == old(storage) - {TokenKey} && authorization.None? && published == old(published) + [Anonymous, Anonymous]
      ensures restored && ParsedClaims(old(StoredToken()).value, parseJson).Some? ==>
        && storage == old(storage) && authorization == old(StoredToken())
        && published == old(published) + [ClientState(old(StoredToken()), parseJson)]
    {
      var token := StoredToken();
      if !IsProbablyJwt(token) {
        if !IsNullOrWhiteSpace(token) {
          ClearToken();
        }
        return false;
      }
      authorization := token;
      var state := GetAuthenticationState();
      published := published + [state];
      restored := true;
    }
  }

  /** `SetToken` with a token carrying the payload {"name":"Zoë"}: the provider publishes
      the anonymous state twice and is left with no stored token and no bearer header, in
      whatever state it started. */
  method SignInWithZoeToken(provider: ApiAuthenticationStateProvider, header: seq<Byte>, signature: seq<Byte>)
    requires |header| >= 5
    modifies provider`storage, provider`authorization, provider`published
    ensures TokenKey !in provider.storage && provider.authorization.None?
    ensures provider.storage == old(provider.storage) - {TokenKey}
    ensures provider.published == old(provider.published) + [Anonymous, Anonymous]
  {
    ZoeToken(header, signature, provider.parseJson);
    provider.SetToken(IssuedToken(header, ZoePayload, signature));
  }
  /** The app's sign-in with the Zoë token: `SetToken`, then the HTTP client's header set to
      the token again by the caller (Client/Services/AuthService.cs:28-30). The next state
      the framework asks for is anonymous, while every API call still carries the token. */
  method ZoeLoginKeepsHeader(provider: ApiAuthenticationStateProvider, header: seq<Byte>, signature: seq<Byte>)
    returns (state: Principal)
    requires |header| >= 5
    modifies provider`storage, provider`authorization, provider`published
    ensures state == Anonymous
    ensures TokenKey !in provider.storage && provider.storage == old(provider.storage) - {TokenKey}
    ensures provider.authorization == Some(IssuedToken(header, ZoePayload, signature))
    ensures provider.published == old(provider.published) + [Anonymous, Anonymous]
  {
    var t := IssuedToken(header, ZoePayload, signature);
    SignInWithZoeToken(provider, header, signature);
    provider.authorization := Some(t);
    state := provider.GetAuthenticationState();
  }

}
