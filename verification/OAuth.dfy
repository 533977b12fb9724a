/** The authorization server of packages/auth/src/oauth-spike.js over a durable auth
    store: what each endpoint does to the pending transactions, codes, access tokens
    and tables. Clock readings are parameters, in the order the source takes them. An
    endpoint that issues several commits is given as its parts, from one commit to the
    next, and as their composition when nothing intervenes. */
module OAuth {
  import opened AuthTables
  import opened Numbers
  import opened Results

  /** SHA-256 of a PKCE verifier, taken as injective. */
  datatype Challenge = S256(verifier: string)

  datatype Config = Config(
    resource: string, scopes: set<string>, approvalSecret: string, owner: OwnerId, profile: string,
    transactionTtl: int, codeTtl: int, accessTtl: int, refreshTtl: int, grantTtl: int, maxPending: nat)

  datatype Transaction = Transaction(
    client: ClientId, redirect: string, resource: string, challenge: Challenge, scopes: set<string>, expiresAt: int)

  datatype Code = Code(transaction: Transaction, grant: GrantId, owner: OwnerId, profile: string, expiresAt: int)

  datatype Access = Access(
    client: ClientId, resource: string, scopes: set<string>, grant: GrantId, owner: OwnerId, profile: string,
    grantExpiresAt: int, family: FamilyId, expiresAt: int)

  datatype Server = Server(
    tables: Tables, transactions: map<string, Transaction>, codes: map<string, Code>, tokens: map<string, Access>)

  datatype OAuthError =
    | UnsupportedResponseType | InvalidRequest | InvalidTarget | InvalidScopeRequested | AccessDenied | GrantRefused
    | TemporarilyUnavailable

  datatype TokenResponse = TokenResponse(access: string, expiresIn: int, scopes: set<string>, refresh: RefreshToken)

  datatype Authorization = Authorization(
    client: ClientId, scopes: set<string>, owner: OwnerId, grant: GrantId, profile: string, grantExpiresAt: int)

  /** Expired entries disappear before every request. */
  function Cleanup(s: Server, now: int): Server {
    s.(transactions := map k | k in s.transactions && now < s.transactions[k].expiresAt :: s.transactions[k],
       codes := map k | k in s.codes && now < s.codes[k].expiresAt :: s.codes[k],
       tokens := map k | k in s.tokens && now < s.tokens[k].expiresAt :: s.tokens[k])
  }

  /** No words ask for every supported scope; one unsupported word refuses. */
  function ParseScope(words: seq<string>, supported: set<string>): Result<set<string>, OAuthError> {
    var scopes := if words == [] then supported else set w | w in words;
    if scopes == {} || !(scopes <= supported) then Err(InvalidScopeRequested) else Ok(scopes)
  }

  // ---------- authorization ----------

  /** `wellFormed` says whether the challenge has the form of a S256 challenge. */
  datatype AuthorizationRequest = AuthorizationRequest(
    responseType: string, client: ClientId, redirect: string, resource: string,
    challenge: Challenge, challengeMethod: string, wellFormed: bool, scope: seq<string>)

  function CheckRequest(cfg: Config, req: AuthorizationRequest): Result<(), OAuthError> {
    if req.responseType == "" then Err(InvalidRequest)
    else if req.responseType != "code" then Err(UnsupportedResponseType)
    else if req.client == "" || req.redirect == "" || req.resource == "" then Err(InvalidRequest)
    else if req.resource != cfg.resource then Err(InvalidTarget)
    else if req.challengeMethod != "S256" || !req.wellFormed then Err(InvalidRequest)
    else Ok(())
  }

  /** beginAuthorization up to its await: it only cleans up and checks the request. */
  function Begin(s: Server, cfg: Config, req: AuthorizationRequest, now: int): (Server, Result<(), OAuthError>) {
    (Cleanup(s, now), CheckRequest(cfg, req))
  }

  /** beginAuthorization after its await, from the writing of the client on. */
  function AddTransaction(s: Server, cfg: Config, req: AuthorizationRequest, id: string, registeredAt: int, now: int)
    : (Server, Result<string, OAuthError>)
  {
    var (tables, client) := WriteClient(s.tables, req.client, cfg.owner, req.redirect, registeredAt);
    var s := s.(tables := tables);
    var scopes := ParseScope(req.scope, cfg.scopes);
    if client.Err? then (s, Err(TemporarilyUnavailable))
    else if scopes.Err? then (s, Err(scopes.error))
    else if |s.transactions| >= cfg.maxPending then (s, Err(TemporarilyUnavailable))
    else
      var t := Transaction(req.client, req.redirect, req.resource, req.challenge, scopes.value,
                           now + cfg.transactionTtl);
      (s.(transactions := s.transactions[id := t]), Ok(id))
  }

  /** beginAuthorization after the client metadata has been validated. */
  function Resume(s: Server, cfg: Config, req: AuthorizationRequest, id: string, registeredAt: int, now: int)
    : (Server, Result<string, OAuthError>)
  {
    if !Paired(s.tables, cfg.owner) then (s, Err(TemporarilyUnavailable))
    else AddTransaction(s, cfg, req, id, registeredAt, now)
  }

  function NewGrant(cfg: Config, t: Transaction, at: int): Grant {
    Grant(cfg.owner, t.client, t.resource, t.scopes, cfg.profile, at, at + cfg.grantTtl, GrantActive)
  }

  /** An approval up to the check of the client. */
  function TakeTransaction(s: Server, cfg: Config, id: string, secret: string, at: int)
    : (Server, Result<Transaction, OAuthError>)
  {
    if id !in s.transactions then (s, Err(InvalidRequest))
    else
      var t := s.transactions[id];
      var s := s.(transactions := s.transactions - {id});
      if secret != cfg.approvalSecret then (s, Err(AccessDenied))
      else if GrantRefusal(s.tables, cfg.scopes, NewGrant(cfg, t, at)).Some? then (s, Err(TemporarilyUnavailable))
      else (s, Ok(t))
  }

  /** An approval from the insertion of the grant on. */
  function AddCode(s: Server, cfg: Config, t: Transaction, grant: GrantId, code: string, at: int)
    : (Server, Result<string, OAuthError>)
  {
    var (tables, g) := WriteGrant(s.tables, grant, NewGrant(cfg, t, at));
    var s := s.(tables := tables);
    if g.Err? then (s, Err(TemporarilyUnavailable))
    else (s.(codes := s.codes[code := Code(t, grant, g.value.owner, g.value.profile, at + cfg.codeTtl)]), Ok(code))
  }

  function ApproveClean(s: Server, cfg: Config, id: string, secret: string, grant: GrantId, code: string, at: int)
    : (Server, Result<string, OAuthError>)
  {
    var (taken, t) := TakeTransaction(s, cfg, id, secret, at);
    if t.Err? then (taken, Err(t.error)) else AddCode(taken, cfg, t.value, grant, code, at)
  }

  function Approve(s: Server, cfg: Config, id: string, secret: string, grant: GrantId, code: string, now: int, at: int)
    : (Server, Result<string, OAuthError>)
  {
    ApproveClean(Cleanup(s, now), cfg, id, secret, grant, code, at)
  }

  // ---------- the token endpoint ----------

  function IssueAccess(
    s: Server, cfg: Config, id: GrantId, grant: Grant, family: FamilyId, at: int, access: string, refresh: RefreshToken)
    : (Server, Result<TokenResponse, OAuthError>)
  {
    var expiresAt := Min(at + cfg.accessTtl, grant.expiresAt);
    if expiresAt <= at then (s, Err(GrantRefused))
    else
      var row := Access(grant.client, grant.resource, grant.scopes, id, grant.owner, grant.profile,
                        grant.expiresAt, family, expiresAt);
      (s.(tokens := s.tokens[access := row]),
       Ok(TokenResponse(access, (expiresAt - at) / 1000, grant.scopes, refresh)))
  }

  datatype CodeRequest = CodeRequest(code: string, client: ClientId, redirect: string, resource: string,
                                     verifier: string)

  predicate CodeMatches(t: Transaction, req: CodeRequest) {
    req.client == t.client && req.redirect == t.redirect && req.resource == t.resource
    && S256(req.verifier) == t.challenge
  }

  /** The random ids one token request draws: a family, a refresh and an access token. */
  datatype Fresh = Fresh(family: FamilyId, refresh: RefreshToken, access: string)

  function FamilyExpiry(cfg: Config, grant: Grant, at: int): int { Min(at + cfg.refreshTtl, grant.expiresAt) }

  function FamilyRow(cfg: Config, id: GrantId, grant: Grant, at: int): Family {
    NewFamily(id, grant.owner, grant.client, grant.resource, at, FamilyExpiry(cfg, grant, at))
  }

  /** A code exchange up to the reading of its grant. */
  function TakeCode(s: Server, cfg: Config, req: CodeRequest, readAt: int)
    : (Server, Result<(GrantId, Grant), OAuthError>)
  {
    if req.code !in s.codes then (s, Err(GrantRefused))
    else
      var code := s.codes[req.code];
      var t := code.transaction;
      var s := s.(codes := s.codes - {req.code});
      if !CodeMatches(t, req) then
        (s, Err(if req.client == t.client && req.redirect == t.redirect && req.resource != t.resource
                then InvalidTarget else GrantRefused))
      else
        var (tables, g) := GetGrant(s.tables, code.grant, readAt);
        var s := s.(tables := tables);
        if g.None? || g.value.status != GrantActive || g.value.owner != cfg.owner
           || g.value.client != t.client || g.value.resource != t.resource || g.value.scopes != t.scopes then
          (s, Err(GrantRefused))
        else (s, Ok((code.grant, g.value)))
  }

  /** The grant is read once more, by the creation of the family. */
  function RecheckGrant(s: Server, cfg: Config, id: GrantId, grant: Grant, at: int): (Server, bool) {
    var (tables, refusal) := CheckFamilyGrant(
      s.tables, id, grant.owner, grant.client, grant.resource, at, FamilyExpiry(cfg, grant, at));
    (s.(tables := tables), refusal.None?)
  }

  /** A code exchange from the insertion of the family on. */
  function AddFamily(s: Server, cfg: Config, id: GrantId, grant: Grant, ids: Fresh, at: int)
    : (Server, Result<TokenResponse, OAuthError>)
  {
    var (tables, family) := WriteFamily(s.tables, ids.family, FamilyRow(cfg, id, grant, at), ids.refresh);
    var s := s.(tables := tables);
    if family.Err? then (s, Err(TemporarilyUnavailable))
    else IssueAccess(s, cfg, id, grant, ids.family, at, ids.access, ids.refresh)
  }

  /** The end of a code exchange, once the grant has been accepted. */
  function FamilyThenAccess(s: Server, cfg: Config, id: GrantId, grant: Grant, ids: Fresh, at: int)
    : (Server, Result<TokenResponse, OAuthError>)
  {
    var (checked, ok) := RecheckGrant(s, cfg, id, grant, at);
    if !ok then (checked, Err(TemporarilyUnavailable)) else AddFamily(checked, cfg, id, grant, ids, at)
  }

  function ExchangeClean(s: Server, cfg: Config, req: CodeRequest, ids: Fresh, readAt: int, at: int)
    : (Server, Result<TokenResponse, OAuthError>)
  {
    var (taken, g) := TakeCode(s, cfg, req, readAt);
    if g.Err? then (taken, Err(g.error)) else FamilyThenAccess(taken, cfg, g.value.0, g.value.1, ids, at)
  }

  function ExchangeCode(s: Server, cfg: Config, req: CodeRequest, ids: Fresh, now: int, readAt: int, at: int)
    : (Server, Result<TokenResponse, OAuthError>)
  {
    ExchangeClean(Cleanup(s, now), cfg, req, ids, readAt, at)
  }

  datatype RefreshRequest = RefreshRequest(
    token: RefreshToken, client: ClientId, resource: string, scope: Option<seq<string>>)

  /** A refresh up to its commit. */
  function RotateFor(s: Server, cfg: Config, req: RefreshRequest, next: RefreshToken, readAt: int)
    : (Server, Result<FamilyId, OAuthError>)
  {
    if req.resource != cfg.resource then (s, Err(InvalidTarget))
    else
      var (tables, rotated) := Rotate(s.tables, req.token, next, req.client, req.resource, readAt);
      var s := s.(tables := tables);
      if rotated.Ok? then (s, Ok(rotated.value.0))
      else
        (s, Err(if rotated.error in {InvalidRefreshToken, RefreshInactive, RefreshReuseDetected}
                then GrantRefused else TemporarilyUnavailable))
  }

  function RequestedScopes(cfg: Config, grant: Grant, scope: Option<seq<string>>): Result<set<string>, OAuthError> {
    if scope.Some? then ParseScope(scope.value, cfg.scopes) else Ok(grant.scopes)
  }

  /** The end of a refresh, after the rotation has been committed: family and grant are
      read again, and a refused scope does not undo the rotation. */
  function AccessAfterRotation(
    s: Server, cfg: Config, scope: Option<seq<string>>, id: FamilyId, next: RefreshToken, access: string, at: int)
    : (Server, Result<TokenResponse, OAuthError>)
    requires id in s.tables.families && s.tables.families[id].grant in s.tables.grants
  {
    var family := s.tables.families[id];
    var grant := s.tables.grants[family.grant];
    var scopes := RequestedScopes(cfg, grant, scope);
    if family.status != FamilyActive || grant.status != GrantActive then (s, Err(GrantRefused))
    else if scopes.Err? then (s, Err(scopes.error))
    else if scopes.value != grant.scopes then (s, Err(InvalidScopeRequested))
    else IssueAccess(s, cfg, family.grant, grant, id, at, access, next)
  }

  function RefreshClean(s: Server, cfg: Config, req: RefreshRequest, ids: Fresh, readAt: int, at: int)
    : (Server, Result<TokenResponse, OAuthError>)
  {
    var (rotated, id) := RotateFor(s, cfg, req, ids.refresh, readAt);
    if id.Err? then (rotated, Err(id.error))
    else AccessAfterRotation(rotated, cfg, req.scope, id.value, ids.refresh, ids.access, at)
  }

  function ExchangeRefresh(s: Server, cfg: Config, req: RefreshRequest, ids: Fresh, now: int, readAt: int, at: int)
    : (Server, Result<TokenResponse, OAuthError>)
  {
    RefreshClean(Cleanup(s, now), cfg, req, ids, readAt, at)
  }

  // ---------- revocation and bearer authentication ----------

  function RevokeEither(s: Server, token: string, client: Option<ClientId>, at: int): Server {
    if token in s.tokens && (client.None? || s.tokens[token].client == client.value) then
      var access := s.tokens[token];
      s.(tokens := s.tokens - {token},
         tables := RevokeTokenFamily(s.tables, access.family, access.owner, at, "client_revoke").0)
    else
      s.(tables := RevokeRefreshToken(s.tables, token, client, at, "client_revoke").0)
  }

  function Revoke(s: Server, token: string, client: Option<ClientId>, now: int, at: int): Server {
    RevokeEither(Cleanup(s, now), token, client, at)
  }

  function CheckFamily(s: Server, a: Access, at: int): (Server, Option<Authorization>) {
    var (tables, f) := GetTokenFamily(s.tables, a.family, at);
    var s := s.(tables := tables);
    if f.None? || f.value.status != FamilyActive || f.value.grant != a.grant || f.value.owner != a.owner
       || f.value.client != a.client || f.value.resource != a.resource then
      (s, None)
    else
      (s, Some(Authorization(a.client, a.scopes, a.owner, a.grant, a.profile, a.grantExpiresAt)))
  }

  /** An authentication up to the reading of the grant. */
  function ReadBearer(s: Server, cfg: Config, token: string, checkedAt: int, grantAt: int): (Server, Option<Access>) {
    if token !in s.tokens || s.tokens[token].resource != cfg.resource || s.tokens[token].expiresAt <= checkedAt then
      (s, None)
    else
      var a := s.tokens[token];
      var (tables, g) := GetGrant(s.tables, a.grant, grantAt);
      var s := s.(tables := tables);
      if g.None? || g.value.status != GrantActive || g.value.owner != a.owner || g.value.client != a.client
         || g.value.resource != a.resource || g.value.profile != a.profile || g.value.scopes != a.scopes then
        (s, None)
      else (s, Some(a))
  }

  function CheckBearer(s: Server, cfg: Config, token: string, checkedAt: int, grantAt: int, familyAt: int)
    : (Server, Option<Authorization>)
  {
    var (read, a) := ReadBearer(s, cfg, token, checkedAt, grantAt);
    if a.None? then (read, None) else CheckFamily(read, a.value, familyAt)
  }

  function Authenticate(s: Server, cfg: Config, token: string, now: int, checkedAt: int, grantAt: int, familyAt: int)
    : (Server, Option<Authorization>)
  {
    CheckBearer(Cleanup(s, now), cfg, token, checkedAt, grantAt, familyAt)
  }
}
