/** Who is calling: the authenticators, how they compose, and what every
    identity they resolve satisfies. */
module Auth {
  import opened Wrappers

  const CLOCK_SKEW: int := 30_000_000_000
  const SECOND: int := 1_000_000_000
  const API_KEY_PREFIX := "depot_"
  const SERVICE_ACCOUNT := "_service"

  datatype Method = MethodAnonymous | MethodOIDC | MethodAPIKey | MethodServiceKey

  datatype Identity = Identity(subject: string, issuer: string, credential: Method, anonymous: bool, admin: bool)

  datatype AuthError = NoCredential | Unauthorized

  predicate WellFormed(id: Identity)
  {
    && (id.anonymous <==> id.credential == MethodAnonymous)
    && (id.admin ==> id.credential == MethodOIDC || id.credential == MethodServiceKey)
    && (if id.anonymous then id.subject == "" && id.issuer == "" else id.subject != "" && id.issuer != "")
  }

  // A claim of a token: a string, or anything else JSON can hold.
  datatype Claim = Text(value: string) | Other

  // An ID token whose signature, issuer and audience go-oidc has verified.
  // claims is None when they do not decode.
  datatype Token = Token(
    subject: string, issuer: string, expiry: Option<int>, issuedAt: Option<int>, claims: Option<map<string, Claim>>)

  // An api_keys row; the table maps the UNIQUE hash to it.
  datatype KeyRow = KeyRow(id: string, account: string, issuer: string, keyLabel: string,
                           expiresAt: Option<int>, lastUsedAt: Option<int>)

  type KeyTable = map<string, KeyRow>

  // What authentication reads: the verifier and the hash as functions, the key
  // table, the clock in nanoseconds.
  datatype World = World(verify: string -> Option<Token>, hash: string -> string, keys: KeyTable, now: int)

  datatype Authenticator =
    | OIDC(adminClaim: string, adminValues: seq<string>)
    | APIKey
    | TokenRouter(oidc: Option<Authenticator>, apikey: Option<Authenticator>)
    | ServiceKey(key: string, inner: Option<Authenticator>)
    | Chain(token: Option<Authenticator>, allowAnonymous: bool)
    | Anonymous

  const ANONYMOUS := Identity("", "", MethodAnonymous, true, false)

  predicate LooksLikeAPIKey(raw: string) { API_KEY_PREFIX <= raw }

  function ClaimGrantsAdmin(claims: map<string, Claim>, claim: string, values: seq<string>): bool
  {
    claim in claims && claims[claim].Text? && claims[claim].value in values
  }

  predicate TimeOk(tok: Token, now: int)
  {
    && tok.expiry.Some? && now <= tok.expiry.value + CLOCK_SKEW
    && (tok.issuedAt.Some? ==> tok.issuedAt.value <= now + CLOCK_SKEW)
  }

  function AuthenticateOIDC(adminClaim: string, adminValues: seq<string>, raw: string, w: World)
    : Result<Identity, AuthError>
  {
    var tok := w.verify(raw);
    if tok.None? || !TimeOk(tok.value, w.now) || tok.value.subject == "" then Err(Unauthorized)
    else
      var admin := adminClaim != "" && tok.value.claims.Some?
          && ClaimGrantsAdmin(tok.value.claims.value, adminClaim, adminValues);
      Ok(Identity(tok.value.subject, tok.value.issuer, MethodOIDC, false, admin))
  }

  function AuthenticateKey(raw: string, w: World): Result<Identity, AuthError>
  {
    var h := w.hash(raw);
    if h !in w.keys then Err(Unauthorized)
    else
      var k := w.keys[h];
      if k.expiresAt.Some? && w.now > k.expiresAt.value * SECOND then Err(Unauthorized)
      else Ok(Identity(k.account, k.issuer, MethodAPIKey, false, false))
  }

  // `bearer` is the token of an "Authorization: Bearer" header, if there is one.
  function Authenticate(a: Authenticator, bearer: Option<string>, w: World): Result<Identity, AuthError>
  {
    match a
    case Anonymous => Ok(ANONYMOUS)
    case Chain(token, allowAnonymous) =>
      if bearer.Some? then
        if token.None? then Err(Unauthorized) else Authenticate(token.value, bearer, w)
      else if allowAnonymous then Ok(ANONYMOUS)
      else Err(NoCredential)
    case ServiceKey(key, inner) =>
      if bearer.None? then Err(NoCredential)
      else if bearer.value == key then Ok(Identity(SERVICE_ACCOUNT, SERVICE_ACCOUNT, MethodServiceKey, false, true))
      else if inner.None? then Err(Unauthorized)
      else Authenticate(inner.value, bearer, w)
    case TokenRouter(oidc, apikey) =>
      if bearer.None? then Err(NoCredential)
      else if LooksLikeAPIKey(bearer.value) then
        if apikey.None? then Err(Unauthorized) else Authenticate(apikey.value, bearer, w)
      else if oidc.None? then Err(Unauthorized) else Authenticate(oidc.value, bearer, w)
    case OIDC(claim, values) =>
      if bearer.None? then Err(NoCredential) else AuthenticateOIDC(claim, values, bearer.value, w)
    case APIKey =>
      if bearer.None? then Err(NoCredential) else AuthenticateKey(bearer.value, w)
  }

  datatype Config = Config(
    anonymous: bool, oidc: bool, apiKey: bool, serviceKeyEnabled: bool,
    issuer: string, adminClaim: string, adminValues: seq<string>)

  // What config validation demands of these fields.
  predicate ValidConfig(c: Config)
  {
    (c.anonymous || c.oidc || c.apiKey) && (c.oidc ==> c.issuer != "")
  }

  function ServiceKeyOver(key: string, inner: Option<Authenticator>): Option<Authenticator>
  {
    if key == "" then inner else Some(ServiceKey(key, inner))
  }

  // buildAuth; None when Depot refuses to start. `secret` is DEPOT_SERVICE_KEY.
  function BuildAuth(c: Config, secret: string): Option<Authenticator>
  {
    if c.serviceKeyEnabled && secret == "" then None
    else
      var oidc := if c.oidc then Some(OIDC(c.adminClaim, c.adminValues)) else None;
      var apikey := if c.apiKey then Some(APIKey) else None;
      var router := if c.oidc || c.apiKey then Some(TokenRouter(oidc, apikey)) else None;
      var token := ServiceKeyOver(if c.serviceKeyEnabled then secret else "", router);
      if token.None? then Some(Anonymous) else Some(Chain(token, c.anonymous))
  }

  // What the surroundings guarantee: verified tokens carry the configured
  // issuer, and stored keys have an owner (ApiKeys proves the latter of runs).
  predicate KeysOwned(keys: KeyTable)
  {
    forall h :: h in keys ==> keys[h].account != "" && keys[h].issuer != ""
  }

  ghost predicate GoodWorld(c: Config, w: World)
  {
    && KeysOwned(w.keys)
    && forall raw :: w.verify(raw).Some? ==> w.verify(raw).value.issuer == c.issuer
  }

  lemma RouterWellFormed(c: Config, bearer: Option<string>, w: World)
    requires ValidConfig(c) && GoodWorld(c, w)
    ensures var oidc := if c.oidc then Some(OIDC(c.adminClaim, c.adminValues)) else None;
            var apikey := if c.apiKey then Some(APIKey) else None;
            var r := Authenticate(TokenRouter(oidc, apikey), bearer, w);
            r.Ok? ==> WellFormed(r.value) && !r.value.anonymous
  {
  }

  // Every identity any configuration resolves is well formed.
  lemma EveryIdentityWellFormed(c: Config, secret: string, bearer: Option<string>, w: World)
    requires ValidConfig(c) && GoodWorld(c, w)
    requires BuildAuth(c, secret).Some?
    ensures var r := Authenticate(BuildAuth(c, secret).value, bearer, w); r.Ok? ==> WellFormed(r.value)
  {
    RouterWellFormed(c, bearer, w);
  }

  predicate HasTokenCredential(c: Config) { c.oidc || c.apiKey || c.serviceKeyEnabled }

  // A presented token is never downgraded to anonymous, exactly when some token
  // credential is enabled; a purely anonymous Depot does not look at tokens.
  lemma NoDowngradeExactly(c: Config, secret: string)
    requires ValidConfig(c) && BuildAuth(c, secret).Some?
    ensures (forall t: string, w: World :: GoodWorld(c, w) ==>
               var r := Authenticate(BuildAuth(c, secret).value, Some(t), w); r.Ok? ==> !r.value.anonymous)
            <==> HasTokenCredential(c)
  {
    var a := BuildAuth(c, secret).value;
    if HasTokenCredential(c) {
      forall t: string, w: World | GoodWorld(c, w)
        ensures var r := Authenticate(a, Some(t), w); r.Ok? ==> !r.value.anonymous
      {
        RouterWellFormed(c, Some(t), w);
      }
    } else {
      var w := World(_ => None, s => s, map[], 0);
      assert GoodWorld(c, w);
      assert Authenticate(a, Some(""), w) == Ok(ANONYMOUS);
    }
  }

  // A token that is not shaped like an API key, verifies, names a subject, and is
  // presented between its issue and its required expiry, give or take 30 seconds.
  predicate LoginToken(c: Config, raw: string, w: World)
  {
    && c.oidc && !("depot_" <= raw)
    && var tok := w.verify(raw);
       && tok.Some? && tok.value.subject != ""
       && tok.value.expiry.Some? && w.now - tok.value.expiry.value <= 30_000_000_000
       && (tok.value.issuedAt.Some? ==> tok.value.issuedAt.value - w.now <= 30_000_000_000)
  }

  // Such a token whose configured claim is one of the granting strings.
  predicate AdminToken(c: Config, raw: string, w: World)
  {
    && LoginToken(c, raw, w) && c.adminClaim != ""
    && w.verify(raw).value.claims.Some?
    && var claims := w.verify(raw).value.claims.value;
       exists v :: v in c.adminValues && c.adminClaim in claims && claims[c.adminClaim] == Text(v)
  }

  lemma RouterAdmin(c: Config, raw: string, w: World)
    ensures var oidc := if c.oidc then Some(OIDC(c.adminClaim, c.adminValues)) else None;
            var apikey := if c.apiKey then Some(APIKey) else None;
            var r := Authenticate(TokenRouter(oidc, apikey), Some(raw), w);
            r.Ok? && r.value.admin <==> AdminToken(c, raw, w)
  {
  }

  lemma RouterKey(c: Config, bearer: Option<string>, w: World)
    ensures var oidc := if c.oidc then Some(OIDC(c.adminClaim, c.adminValues)) else None;
            var apikey := if c.apiKey then Some(APIKey) else None;
            var r := Authenticate(TokenRouter(oidc, apikey), bearer, w);
            r.Ok? && r.value.credential == MethodAPIKey ==> bearer.Some? && r == AuthenticateKey(bearer.value, w)
  {
  }

  // Admin rights come from exactly two places: the service key, or a token whose
  // configured claim holds a granting value.
  lemma AdminExactly(c: Config, secret: string, bearer: Option<string>, w: World)
    requires ValidConfig(c) && BuildAuth(c, secret).Some?
    ensures var r := Authenticate(BuildAuth(c, secret).value, bearer, w);
            r.Ok? && r.value.admin <==>
              bearer.Some? && ((c.serviceKeyEnabled && bearer.value == secret) || AdminToken(c, bearer.value, w))
  {
    if bearer.Some? { RouterAdmin(c, bearer.value, w); }
  }

  lemma RouterOIDC(c: Config, raw: string, w: World)
    ensures var oidc := if c.oidc then Some(OIDC(c.adminClaim, c.adminValues)) else None;
            var apikey := if c.apiKey then Some(APIKey) else None;
            var r := Authenticate(TokenRouter(oidc, apikey), Some(raw), w);
            && (r.Ok? && r.value.credential == MethodOIDC <==> LoginToken(c, raw, w))
            && (LoginToken(c, raw, w) ==>
                  var tok := w.verify(raw).value;
                  r.value.subject == tok.subject && r.value.issuer == tok.issuer)
  {
  }

  // Logins are exactly the good tokens that are not the service key, and they
  // resolve to the token's own subject and issuer.
  lemma LoginExactly(c: Config, secret: string, bearer: Option<string>, w: World)
    requires ValidConfig(c) && BuildAuth(c, secret).Some?
    ensures var r := Authenticate(BuildAuth(c, secret).value, bearer, w);
            && (r.Ok? && r.value.credential == MethodOIDC
                <==> bearer.Some? && !(c.serviceKeyEnabled && bearer.value == secret) && LoginToken(c, bearer.value, w))
            && (r.Ok? && r.value.credential == MethodOIDC ==>
                  var tok := w.verify(bearer.value).value;
                  r.value.subject == tok.subject && r.value.issuer == tok.issuer)
  {
    if bearer.Some? { RouterOIDC(c, bearer.value, w); }
  }

  // A token shaped like an API key whose hash is stored, up to the end of the
  // whole second in which it expires.
  predicate LiveKey(c: Config, raw: string, w: World)
  {
    && c.apiKey && "depot_" <= raw && w.hash(raw) in w.keys
    && var k := w.keys[w.hash(raw)];
       k.expiresAt.Some? ==> w.now <= k.expiresAt.value * 1_000_000_000
  }

  lemma RouterLiveKey(c: Config, raw: string, w: World)
    ensures var oidc := if c.oidc then Some(OIDC(c.adminClaim, c.adminValues)) else None;
            var apikey := if c.apiKey then Some(APIKey) else None;
            var r := Authenticate(TokenRouter(oidc, apikey), Some(raw), w);
            && (r.Ok? && r.value.credential == MethodAPIKey <==> LiveKey(c, raw, w))
            && (LiveKey(c, raw, w) ==>
                  var k := w.keys[w.hash(raw)];
                  r.value.subject == k.account && r.value.issuer == k.issuer)
  {
  }

  // API keys authenticate exactly while they are stored and unexpired, as their
  // owner.
  lemma KeyExactly(c: Config, secret: string, bearer: Option<string>, w: World)
    requires ValidConfig(c) && BuildAuth(c, secret).Some?
    ensures var r := Authenticate(BuildAuth(c, secret).value, bearer, w);
            && (r.Ok? && r.value.credential == MethodAPIKey
                <==> bearer.Some? && !(c.serviceKeyEnabled && bearer.value == secret) && LiveKey(c, bearer.value, w))
            && (r.Ok? && r.value.credential == MethodAPIKey ==>
                  var k := w.keys[w.hash(bearer.value)];
                  r.value.subject == k.account && r.value.issuer == k.issuer)
  {
    if bearer.Some? { RouterLiveKey(c, bearer.value, w); }
  }

  // The service key is the configured secret and nothing else; it resolves to the
  // reserved service identity, an admin. Depot does not start with it enabled and
  // empty.
  lemma ServiceKeyExactly(c: Config, secret: string, bearer: Option<string>, w: World)
    requires ValidConfig(c)
    ensures BuildAuth(c, secret).None? <==> c.serviceKeyEnabled && secret == ""
    ensures BuildAuth(c, secret).Some? ==>
              var r := Authenticate(BuildAuth(c, secret).value, bearer, w);
              && (c.serviceKeyEnabled && bearer == Some(secret) ==>
                    r == Ok(Identity("_service", "_service", MethodServiceKey, false, true)))
              && (r.Ok? && r.value.credential == MethodServiceKey ==> c.serviceKeyEnabled && bearer == Some(secret))
  {
    RouterNotService(c, bearer, w);
  }

  lemma RouterNotService(c: Config, bearer: Option<string>, w: World)
    ensures var oidc := if c.oidc then Some(OIDC(c.adminClaim, c.adminValues)) else None;
            var apikey := if c.apiKey then Some(APIKey) else None;
            var r := Authenticate(TokenRouter(oidc, apikey), bearer, w);
            r.Ok? ==> r.value.credential == MethodOIDC || r.value.credential == MethodAPIKey
  {
  }

  // Anonymous callers: those without a token, where that is enabled; and
  // everybody, where nothing else is.
  lemma AnonymousExactly(c: Config, secret: string, bearer: Option<string>, w: World)
    requires ValidConfig(c) && GoodWorld(c, w) && BuildAuth(c, secret).Some?
    ensures var r := Authenticate(BuildAuth(c, secret).value, bearer, w);
            && (r == Ok(ANONYMOUS) <==> !HasTokenCredential(c) || (bearer.None? && c.anonymous))
            && (r == Err(NoCredential) <==> HasTokenCredential(c) && bearer.None? && !c.anonymous)
  {
    RouterWellFormed(c, bearer, w);
  }
}
