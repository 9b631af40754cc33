/** `Verifier.Verify`, `NewServer` and the checks of `clientConfig` (internal/configd). */
module TokenBroker {
  import opened Text

  datatype Header = Header(alg: string, kid: string)
  datatype Claims = Claims(issuer: string, expiry: int, groups: seq<string>)

  /** The decoders and the signature check, which the model does not look into. */
  datatype Codec = Codec(
    base64: string -> Option<string>,
    header: string -> Option<Header>,
    claims: string -> Option<Claims>,
    signed: (nat, string, string) -> bool)

  datatype TenantEntry = TenantEntry(issuer: string, tenant: string, headscaleUser: string)

  function Bind<A, B>(a: Option<A>, f: A -> Option<B>): Option<B> {
    if a.None? then None else f(a.value)
  }

  /** `keyFor` answers None when it returns an error. */
  function Verify(codec: Codec, keyFor: (string, string) -> Option<nat>, token: string, allowed: set<string>, now: int)
    : Option<Claims>
  {
    var parts := Split(token, '.');
    if |parts| != 3 then None
    else
      var header := Bind(codec.base64(parts[0]), codec.header);
      if header.None? || header.value.alg != "RS256" then None
      else
        var claims := Bind(codec.base64(parts[1]), codec.claims);
        if claims.None? || claims.value.issuer !in allowed || now >= claims.value.expiry then None
        else
          var key := keyFor(claims.value.issuer, header.value.kid);
          var signature := codec.base64(parts[2]);
          if key.None? || signature.None? then None
          else if !codec.signed(key.value, parts[0] + "." + parts[1], signature.value) then None
          else claims
  }

  /** A token signed, under a key of the issuer it names, over exactly the header and claims it carries. */
  ghost predicate SignedBy(codec: Codec, keyFor: (string, string) -> Option<nat>, token: string, claims: Claims) {
    exists head, body, tail ::
      && token == head + "." + body + "." + tail && '.' !in head && '.' !in body && '.' !in tail
      && SignedParts(codec, keyFor, head, body, tail, claims)
  }

  ghost predicate SignedParts(codec: Codec, keyFor: (string, string) -> Option<nat>, head: string, body: string,
                              tail: string, claims: Claims) {
    var header, signature := Bind(codec.base64(head), codec.header), codec.base64(tail);
    && header.Some? && header.value.alg == "RS256"
    && Bind(codec.base64(body), codec.claims) == Some(claims)
    && keyFor(claims.issuer, header.value.kid).Some? && signature.Some?
    && codec.signed(keyFor(claims.issuer, header.value.kid).value, head + "." + body, signature.value)
  }

  lemma ThreeParts(token: string, head: string, body: string, tail: string)
    requires '.' !in head && '.' !in body && '.' !in tail
    ensures token == head + "." + body + "." + tail <==> Split(token, '.') == [head, body, tail]
  {
    var parts := [head, body, tail];
    assert Join(parts[1..], ".") == body + "." + tail by { assert parts[1..][1..] == [tail]; }
    assert Join(parts, ".") == head + "." + body + "." + tail;
    JoinOfSplit(token, '.');
    SplitOfJoin(parts, '.');
  }

  /** Verify accepts exactly the unexpired tokens of allowed issuers, signed RS256 by the issuer they name. */
  lemma VerifyExactly(codec: Codec, keyFor: (string, string) -> Option<nat>, token: string, allowed: set<string>,
                      now: int, claims: Claims)
    ensures Verify(codec, keyFor, token, allowed, now) == Some(claims)
       <==> claims.issuer in allowed && now < claims.expiry && SignedBy(codec, keyFor, token, claims)
  {
    var parts := Split(token, '.');
    JoinOfSplit(token, '.');
    if Verify(codec, keyFor, token, allowed, now) == Some(claims) {
      assert parts == [parts[0], parts[1], parts[2]];
      ThreeParts(token, parts[0], parts[1], parts[2]);
      assert SignedParts(codec, keyFor, parts[0], parts[1], parts[2], claims);
    }
    if SignedBy(codec, keyFor, token, claims) {
      var head, body, tail :| token == head + "." + body + "." + tail && '.' !in head && '.' !in body && '.' !in tail
                              && SignedParts(codec, keyFor, head, body, tail, claims);
      ThreeParts(token, head, body, tail);
    }
  }

  /** `strings.TrimRight(s, "/")`. */
  function TrimSlashes(s: string): (r: string)
    ensures r == [] || r[|r| - 1] != '/'
  {
    if s != [] && s[|s| - 1] == '/' then TrimSlashes(s[..|s| - 1]) else s
  }

  lemma TrimSlashesTwice(s: string)
    ensures TrimSlashes(TrimSlashes(s)) == TrimSlashes(s)
  {
  }

  /** The roster by trimmed issuer; the last entry of an issuer wins. */
  function ByIssuer(tenants: seq<TenantEntry>): map<string, TenantEntry> {
    if tenants == [] then map[]
    else ByIssuer(tenants[..|tenants| - 1])[TrimSlashes(tenants[|tenants| - 1].issuer) := tenants[|tenants| - 1]]
  }

  method NewServer(tenants: seq<TenantEntry>) returns (byIssuer: map<string, TenantEntry>)
    ensures byIssuer == ByIssuer(tenants)
  {
    byIssuer := map[];
    for i := 0 to |tenants|
      invariant byIssuer == ByIssuer(tenants[..i])
    {
      PrefixStep(tenants, i);
      byIssuer := byIssuer[TrimSlashes(tenants[i].issuer) := tenants[i]];
    }
    assert tenants[..|tenants|] == tenants;
  }

  lemma {:induction false} ByIssuerIsTrimmed(tenants: seq<TenantEntry>, issuer: string)
    requires issuer in ByIssuer(tenants)
    ensures TrimSlashes(issuer) == issuer
    ensures ByIssuer(tenants)[issuer] in tenants && TrimSlashes(ByIssuer(tenants)[issuer].issuer) == issuer
  {
    var last := tenants[|tenants| - 1];
    TrimSlashesTwice(last.issuer);
    if issuer != TrimSlashes(last.issuer) {
      ByIssuerIsTrimmed(tenants[..|tenants| - 1], issuer);
    }
  }

  ghost predicate IsLastAt(tenants: seq<TenantEntry>, issuer: string, e: TenantEntry, i: nat) {
    && i < |tenants| && tenants[i] == e && TrimSlashes(e.issuer) == issuer
    && forall j :: i < j < |tenants| ==> TrimSlashes(tenants[j].issuer) != issuer
  }

  /** The last roster entry of an issuer. */
  ghost predicate IsLastOf(tenants: seq<TenantEntry>, issuer: string, e: TenantEntry) {
    exists i: nat :: IsLastAt(tenants, issuer, e, i)
  }

  lemma LastStays(tenants: seq<TenantEntry>, issuer: string, e: TenantEntry)
    requires tenants != [] && TrimSlashes(tenants[|tenants| - 1].issuer) != issuer
    requires IsLastOf(tenants[..|tenants| - 1], issuer, e)
    ensures IsLastOf(tenants, issuer, e)
  {
    var before := tenants[..|tenants| - 1];
    var i: nat :| IsLastAt(before, issuer, e, i);
    forall j | i < j < |tenants| ensures TrimSlashes(tenants[j].issuer) != issuer {
      if j < |before| { assert tenants[j] == before[j]; }
    }
    assert IsLastAt(tenants, issuer, e, i);
  }

  /** The table leads from each issuer of the roster to its last entry, and from nothing else. */
  lemma {:induction false} ByIssuerIsLast(tenants: seq<TenantEntry>, issuer: string)
    ensures issuer in ByIssuer(tenants) <==> exists e :: e in tenants && TrimSlashes(e.issuer) == issuer
    ensures issuer in ByIssuer(tenants) ==> IsLastOf(tenants, issuer, ByIssuer(tenants)[issuer])
    decreases |tenants|
  {
    if tenants != [] {
      var n := |tenants| - 1;
      var before := tenants[..n];
      assert tenants == before + [tenants[n]];
      ByIssuerIsLast(before, issuer);
      if TrimSlashes(tenants[n].issuer) == issuer {
        assert IsLastAt(tenants, issuer, tenants[n], n);
      } else if issuer in ByIssuer(before) {
        LastStays(tenants, issuer, ByIssuer(before)[issuer]);
      }
    }
  }

  const VPN_GROUPS := {"vpn", "dev", "admin"}

  method VPNEntitled(claims: Claims) returns (entitled: bool)
    ensures entitled <==> exists g :: g in claims.groups && g in {"vpn", "dev", "admin"}
  {
    for i := 0 to |claims.groups|
      invariant forall j :: 0 <= j < i ==> claims.groups[j] !in VPN_GROUPS
    {
      if claims.groups[i] in VPN_GROUPS {
        assert claims.groups[i] in claims.groups;
        return true;
      }
    }
    return false;
  }

  datatype Response =
    | MissingToken
    | Rejected
    | NoRealm
    | NoVpnGroup
    | NoMeshKey
    | NotSigned
    | Issued(entry: TenantEntry)

  /** The token in the Authorization header. */
  function BearerToken(authorization: string): string {
    TrimSpace(if "Bearer " <= authorization then authorization[7..] else authorization)
  }

  /** A token that neither begins nor ends in white space. */
  predicate IsTrimmed(token: string) {
    token != "" && !IsSpace(token[0]) && !IsSpace(token[|token| - 1])
  }

  /** The header of section 2.1 of RFC 6750 carries its token, and no other header does. */
  lemma BearerReads(authorization: string, token: string)
    ensures IsTrimmed(token) && authorization == "Bearer " + token ==>
              BearerToken(authorization) == token && token !in {"", authorization}
    ensures !("Bearer " <= authorization) && IsTrimmed(authorization) ==> BearerToken(authorization) == authorization
  {
    assert ("Bearer " + token)[7..] == token;
  }

  /** The roster has an entry of the issuer, and a mesh key comes back for each. */
  ghost predicate Serves(tenants: seq<TenantEntry>, issuer: string, minted: string -> bool) {
    && (exists e :: e in tenants && TrimSlashes(e.issuer) == issuer)
    && forall e :: e in tenants && TrimSlashes(e.issuer) == issuer ==> minted(e.headscaleUser)
  }

  lemma {:induction false} ServedIsThere(tenants: seq<TenantEntry>, e: TenantEntry)
    requires e in tenants
    ensures TrimSlashes(e.issuer) in ByIssuer(tenants)
    decreases |tenants|
  {
    var n := |tenants| - 1;
    if e != tenants[n] {
      assert tenants == tenants[..n] + [tenants[n]];
      ServedIsThere(tenants[..n], e);
    }
  }

  /**
   * The handler's checks in order; `minted` and `signs` say whether the mesh key and the signature come back, `asked`
   * is the user a mesh key was asked for. Each refusal has its own reason, and no key is asked for before the caller is
   * verified and entitled.
   */
  method ClientConfig(byIssuer: map<string, TenantEntry>, codec: Codec, keyFor: (string, string) -> Option<nat>,
                      authorization: string, now: int, minted: string -> bool, signs: bool)
    returns (response: Response, asked: Option<string>)
    ensures response.Issued? <==>
              exists claims: Claims ::
                && BearerToken(authorization) !in {"", authorization}
                && Verify(codec, keyFor, BearerToken(authorization), byIssuer.Keys, now) == Some(claims)
                && TrimSlashes(claims.issuer) in byIssuer
                && (exists g :: g in claims.groups && g in {"vpn", "dev", "admin"})
                && minted(byIssuer[TrimSlashes(claims.issuer)].headscaleUser) && signs
    ensures response.Issued? || response.NoRealm? ==>
              exists claims: Claims ::
                && Verify(codec, keyFor, BearerToken(authorization), byIssuer.Keys, now) == Some(claims)
                && (response.Issued? <==> TrimSlashes(claims.issuer) in byIssuer)
                && (response.Issued? ==> byIssuer[TrimSlashes(claims.issuer)] == response.entry)
    ensures response.MissingToken? <==> BearerToken(authorization) in {"", authorization}
    ensures response.Rejected? <==> !response.MissingToken?
                                    && Verify(codec, keyFor, BearerToken(authorization), byIssuer.Keys, now).None?
    ensures response.NoVpnGroup? ==>
              exists claims: Claims ::
                && Verify(codec, keyFor, BearerToken(authorization), byIssuer.Keys, now) == Some(claims)
                && forall g :: g in claims.groups ==> g !in {"vpn", "dev", "admin"}
    ensures asked.Some? ==>
              exists claims: Claims ::
                && Verify(codec, keyFor, BearerToken(authorization), byIssuer.Keys, now) == Some(claims)
                && TrimSlashes(claims.issuer) in byIssuer
                && (exists g :: g in claims.groups && g in {"vpn", "dev", "admin"})
                && asked.value == byIssuer[TrimSlashes(claims.issuer)].headscaleUser
    ensures asked.Some? <==> response.NoMeshKey? || response.NotSigned? || response.Issued?
    ensures asked.Some? ==> (response.NoMeshKey? <==> !minted(asked.value)) && (response.NotSigned? ==> !signs)
  {
    asked := None;
    var token := BearerToken(authorization);
    if token == "" || token == authorization {
      return MissingToken, asked;
    }
    var verified := Verify(codec, keyFor, token, byIssuer.Keys, now);
    if verified.None? {
      return Rejected, asked;
    }
    var claims := verified.value;
    if TrimSlashes(claims.issuer) !in byIssuer {
      return NoRealm, asked;
    }
    var entry := byIssuer[TrimSlashes(claims.issuer)];
    var entitled := VPNEntitled(claims);
    if !entitled {
      return NoVpnGroup, asked;
    }
    asked := Some(entry.headscaleUser);
    if !minted(entry.headscaleUser) {
      return NoMeshKey, asked;
    }
    if !signs {
      return NotSigned, asked;
    }
    return Issued(entry), asked;
  }

  /**
   * The whole broker on a roster: the unknown-realm branch is dead, and an issued configuration is for the roster entry
   * of the issuer that signed the caller's token.
   */
  method Serve(tenants: seq<TenantEntry>, codec: Codec, keyFor: (string, string) -> Option<nat>,
               authorization: string, now: int, minted: string -> bool, signs: bool)
    returns (response: Response, asked: Option<string>)
    ensures response != NoRealm
    ensures response.Issued? ==>
              && IsLastOf(tenants, TrimSlashes(response.entry.issuer), response.entry)
              && minted(response.entry.headscaleUser)
              && exists claims: Claims ::
                   && SignedBy(codec, keyFor, BearerToken(authorization), claims) && now < claims.expiry
                   && claims.issuer == TrimSlashes(response.entry.issuer)
                   && exists g :: g in claims.groups && g in {"vpn", "dev", "admin"}
    // A mesh key is asked for only for such a caller, and in the name of the tenant whose issuer signed the token.
    ensures asked.Some? ==>
              exists claims: Claims, e: TenantEntry ::
                && SignedBy(codec, keyFor, BearerToken(authorization), claims) && now < claims.expiry
                && IsLastOf(tenants, claims.issuer, e) && asked.value == e.headscaleUser
                && exists g :: g in claims.groups && g in {"vpn", "dev", "admin"}
    // A caller with a signed and unexpired token of a tenant of the roster, in one of the three groups, is served.
    ensures forall token, claims: Claims |
              && authorization == "Bearer " + token && IsTrimmed(token)
              && SignedBy(codec, keyFor, token, claims) && now < claims.expiry
              && (exists g :: g in claims.groups && g in {"vpn", "dev", "admin"})
              && Serves(tenants, claims.issuer, minted) && signs ::
              response.Issued?
  {
    var byIssuer := NewServer(tenants);
    forall token, claims: Claims | authorization == "Bearer " + token && IsTrimmed(token)
                                   && SignedBy(codec, keyFor, token, claims) && now < claims.expiry
                                   && Serves(tenants, claims.issuer, minted)
      ensures BearerToken(authorization) == token && token !in {"", authorization}
      ensures Verify(codec, keyFor, token, byIssuer.Keys, now) == Some(claims)
      ensures TrimSlashes(claims.issuer) in byIssuer && minted(byIssuer[TrimSlashes(claims.issuer)].headscaleUser)
    {
      BearerReads(authorization, token);
      var e :| e in tenants && TrimSlashes(e.issuer) == claims.issuer;
      TrimSlashesTwice(e.issuer);
      ServedIsThere(tenants, e);
      ByIssuerIsTrimmed(tenants, claims.issuer);
      VerifyExactly(codec, keyFor, token, byIssuer.Keys, now, claims);
    }
    response, asked := ClientConfig(byIssuer, codec, keyFor, authorization, now, minted, signs);
    forall claims: Claims | Verify(codec, keyFor, BearerToken(authorization), byIssuer.Keys, now) == Some(claims)
      ensures TrimSlashes(claims.issuer) == claims.issuer && claims.issuer in byIssuer
      ensures IsLastOf(tenants, claims.issuer, byIssuer[claims.issuer])
      ensures TrimSlashes(byIssuer[claims.issuer].issuer) == claims.issuer
      ensures now < claims.expiry && SignedBy(codec, keyFor, BearerToken(authorization), claims)
    {
      VerifyExactly(codec, keyFor, BearerToken(authorization), byIssuer.Keys, now, claims);
      ByIssuerIsTrimmed(tenants, claims.issuer);
      ByIssuerIsLast(tenants, claims.issuer);
    }
  }
}
