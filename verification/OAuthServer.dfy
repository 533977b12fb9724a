/** The OAuthSpike object: its in-memory maps and its store, updated in place, when no other
    process commits during a request. OAuthRuns lets one commit between the parts. */
module OAuthServer {
  import opened AuthInvariant
  import opened AuthStore
  import opened AuthTables
  import opened Numbers
  import opened OAuth
  import opened OAuthInvariant
  import opened Results

  class OAuthSpike {
    const cfg: Config
    const store: Store
    var transactions: map<string, Transaction>
    var codes: map<string, Code>
    var tokens: map<string, Access>

    ghost function State(): Server reads this, store { Server(store.State(), transactions, codes, tokens) }

    ghost predicate Valid() reads this, store {
      ServerInv(State(), cfg) && store.supportedScopes == cfg.scopes
    }

    constructor (cfg: Config, store: Store)
      requires store.Valid() && store.supportedScopes == cfg.scopes
      ensures Valid() && this.cfg == cfg && this.store == store
      ensures State() == Server(store.State(), map[], map[], map[])
    {
      this.cfg, this.store := cfg, store;
      transactions, codes, tokens := map[], map[], map[];
    }

    method CleanupTransactions(now: int)
      modifies this`transactions
      ensures transactions == Cleanup(old(State()), now).transactions
    {
      ghost var was := transactions;
      var todo := transactions.Keys;
      while todo != {}
        invariant todo <= was.Keys
        invariant transactions == map k | k in was && (k in todo || now < was[k].expiresAt) :: was[k]
        decreases |todo|
      {
        var k :| k in todo;
        if transactions[k].expiresAt <= now {
          transactions := transactions - {k};
        }
        todo := todo - {k};
      }
    }

    method CleanupCodes(now: int)
      modifies this`codes
      ensures codes == Cleanup(old(State()), now).codes
    {
      ghost var was := codes;
      var todo := codes.Keys;
      while todo != {}
        invariant todo <= was.Keys
        invariant codes == map k | k in was && (k in todo || now < was[k].expiresAt) :: was[k]
        decreases |todo|
      {
        var k :| k in todo;
        if codes[k].expiresAt <= now {
          codes := codes - {k};
        }
        todo := todo - {k};
      }
    }

    method CleanupTokens(now: int)
      modifies this`tokens
      ensures tokens == Cleanup(old(State()), now).tokens
    {
      ghost var was := tokens;
      var todo := tokens.Keys;
      while todo != {}
        invariant todo <= was.Keys
        invariant tokens == map k | k in was && (k in todo || now < was[k].expiresAt) :: was[k]
        decreases |todo|
      {
        var k :| k in todo;
        if tokens[k].expiresAt <= now {
          tokens := tokens - {k};
        }
        todo := todo - {k};
      }
    }

    method CleanupAll(now: int)
      requires Valid()
      modifies this
      ensures Valid() && State() == Cleanup(old(State()), now)
    {
      CleanupSafe(State(), cfg, now);
      CleanupTransactions(now);
      CleanupCodes(now);
      CleanupTokens(now);
    }

    method BeginAuthorization(req: AuthorizationRequest, now: int) returns (r: Result<(), OAuthError>)
      requires Valid()
      modifies this
      ensures Valid() && (State(), r) == Begin(old(State()), cfg, req, now)
    {
      CleanupAll(now);
      if req.responseType == "" {
        return Err(InvalidRequest);
      }
      if req.responseType != "code" {
        return Err(UnsupportedResponseType);
      }
      if req.client == "" || req.redirect == "" || req.resource == "" {
        return Err(InvalidRequest);
      }
      if req.resource != cfg.resource {
        return Err(InvalidTarget);
      }
      if req.challengeMethod != "S256" || !req.wellFormed {
        return Err(InvalidRequest);
      }
      return Ok(());
    }

    method ResumeAuthorization(req: AuthorizationRequest, id: string, registeredAt: int, now: int)
      returns (r: Result<string, OAuthError>)
      requires Valid()
      modifies this, store
      ensures Valid() && (State(), r) == Resume(old(State()), cfg, req, id, registeredAt, now)
    {
      hide Inv, Evolves;
      ResumeSafe(State(), cfg, req, id, registeredAt, now);
      var client := store.RegisterClient(req.client, cfg.owner, req.redirect, registeredAt);
      if client.Err? {
        return Err(TemporarilyUnavailable);
      }
      var scopes := ParseScope(req.scope, cfg.scopes);
      if scopes.Err? {
        return Err(scopes.error);
      }
      if |transactions| >= cfg.maxPending {
        return Err(TemporarilyUnavailable);
      }
      transactions := transactions[id := Transaction(
        req.client, req.redirect, req.resource, req.challenge, scopes.value, now + cfg.transactionTtl)];
      return Ok(id);
    }

    method ApproveTransaction(id: string, secret: string, grant: GrantId, code: string, now: int, at: int)
      returns (r: Result<string, OAuthError>)
      requires Valid()
      modifies this, store
      ensures Valid() && (State(), r) == Approve(old(State()), cfg, id, secret, grant, code, now, at)
    {
      CleanupAll(now);
      r := UseTransaction(id, secret, grant, code, at);
    }

    method UseTransaction(id: string, secret: string, grant: GrantId, code: string, at: int)
      returns (r: Result<string, OAuthError>)
      requires Valid()
      modifies this`transactions, this`codes, store
      ensures Valid() && (State(), r) == ApproveClean(old(State()), cfg, id, secret, grant, code, at)
    {
      hide Inv, Evolves;
      ApproveCleanSafe(State(), cfg, id, secret, grant, code, at);
      if id !in transactions {
        return Err(InvalidRequest);
      }
      var transaction := transactions[id];
      transactions := transactions - {id};
      if secret != cfg.approvalSecret {
        return Err(AccessDenied);
      }
      var durable := store.CreateGrant(grant, NewGrant(cfg, transaction, at));
      if durable.Err? {
        return Err(TemporarilyUnavailable);
      }
      codes := codes[code := Code(transaction, grant, durable.value.owner, durable.value.profile, at + cfg.codeTtl)];
      return Ok(code);
    }

    method IssueAccessToken(id: GrantId, grant: Grant, family: FamilyId, at: int, access: string, refresh: RefreshToken)
      returns (r: Result<TokenResponse, OAuthError>)
      modifies this`tokens
      ensures (State(), r) == IssueAccess(old(State()), cfg, id, grant, family, at, access, refresh)
    {
      var expiresAt := Min(at + cfg.accessTtl, grant.expiresAt);
      if expiresAt <= at {
        return Err(GrantRefused);
      }
      tokens := tokens[access := Access(grant.client, grant.resource, grant.scopes, id, grant.owner, grant.profile,
                                        grant.expiresAt, family, expiresAt)];
      return Ok(TokenResponse(access, (expiresAt - at) / 1000, grant.scopes, refresh));
    }

    method ExchangeAuthorizationCode(req: CodeRequest, ids: Fresh, now: int, readAt: int, at: int)
      returns (r: Result<TokenResponse, OAuthError>)
      requires Valid()
      modifies this, store
      ensures Valid() && (State(), r) == ExchangeCode(old(State()), cfg, req, ids, now, readAt, at)
    {
      CleanupAll(now);
      r := UseCode(req, ids, readAt, at);
    }

    method UseCode(req: CodeRequest, ids: Fresh, readAt: int, at: int) returns (r: Result<TokenResponse, OAuthError>)
      requires Valid()
      modifies this`codes, this`tokens, store
      ensures Valid() && (State(), r) == ExchangeClean(old(State()), cfg, req, ids, readAt, at)
    {
      hide Inv, Evolves;
      ExchangeCleanSafe(State(), cfg, req, ids, readAt, at);
      if req.code !in codes {
        return Err(GrantRefused);
      }
      var code := codes[req.code];
      var t := code.transaction;
      codes := codes - {req.code};
      if req.client != t.client || req.redirect != t.redirect {
        return Err(GrantRefused);
      }
      if req.resource != t.resource {
        return Err(InvalidTarget);
      }
      if S256(req.verifier) != t.challenge {
        return Err(GrantRefused);
      }
      var g := store.GetGrant(code.grant, readAt);
      if g.None? || g.value.status != GrantActive || g.value.owner != cfg.owner
         || g.value.client != t.client || g.value.resource != t.resource || g.value.scopes != t.scopes {
        return Err(GrantRefused);
      }
      r := IssueFamily(code.grant, g.value, ids, at);
    }

    method IssueFamily(id: GrantId, grant: Grant, ids: Fresh, at: int) returns (r: Result<TokenResponse, OAuthError>)
      requires store.Valid()
      modifies this`tokens, store
      ensures store.Valid()
      ensures (State(), r) == FamilyThenAccess(old(State()), cfg, id, grant, ids, at)
    {
      var family := store.CreateTokenFamily(ids.family, id, grant.owner, grant.client, grant.resource,
                                            ids.refresh, at, Min(at + cfg.refreshTtl, grant.expiresAt));
      if family.Err? {
        return Err(TemporarilyUnavailable);
      }
      r := IssueAccessToken(id, grant, ids.family, at, ids.access, ids.refresh);
    }

    method ExchangeRefreshToken(req: RefreshRequest, ids: Fresh, now: int, readAt: int, at: int)
      returns (r: Result<TokenResponse, OAuthError>)
      requires Valid()
      modifies this, store
      ensures Valid() && (State(), r) == ExchangeRefresh(old(State()), cfg, req, ids, now, readAt, at)
    {
      CleanupAll(now);
      r := UseRefreshToken(req, ids, readAt, at);
    }

    method UseRefreshToken(req: RefreshRequest, ids: Fresh, readAt: int, at: int)
      returns (r: Result<TokenResponse, OAuthError>)
      requires Valid()
      modifies this`tokens, store
      ensures Valid() && (State(), r) == RefreshClean(old(State()), cfg, req, ids, readAt, at)
    {
      hide Inv, Evolves;
      RefreshCleanSafe(State(), cfg, req, ids, readAt, at);
      if req.resource != cfg.resource {
        return Err(InvalidTarget);
      }
      var rotated := store.RotateRefreshToken(req.token, ids.refresh, req.client, req.resource, readAt);
      if rotated.Err? {
        if rotated.error in {InvalidRefreshToken, RefreshInactive, RefreshReuseDetected} {
          return Err(GrantRefused);
        }
        return Err(TemporarilyUnavailable);
      }
      var (id, family, grant) := rotated.value;
      if family.status != FamilyActive || grant.status != GrantActive {
        return Err(GrantRefused);
      }
      var scopes := Ok(grant.scopes);
      if req.scope.Some? {
        scopes := ParseScope(req.scope.value, cfg.scopes);
      }
      if scopes.Err? {
        return Err(scopes.error);
      }
      if scopes.value != grant.scopes {
        return Err(InvalidScopeRequested);
      }
      r := IssueAccessToken(family.grant, grant, id, at, ids.access, ids.refresh);
    }

    method RevokeToken(token: string, client: Option<ClientId>, now: int, at: int)
      requires Valid()
      modifies this, store
      ensures Valid() && State() == Revoke(old(State()), token, client, now, at)
    {
      CleanupAll(now);
      RevokeTakingEither(token, client, at);
    }

    method RevokeTakingEither(token: string, client: Option<ClientId>, at: int)
      requires Valid()
      modifies this`tokens, store
      ensures Valid() && State() == RevokeEither(old(State()), token, client, at)
    {
      hide Inv, Evolves;
      RevokeEitherSafe(State(), cfg, token, client, at);
      if token in tokens && (client.None? || tokens[token].client == client.value) {
        var access := tokens[token];
        tokens := tokens - {token};
        var _ := store.RevokeTokenFamily(access.family, access.owner, at, "client_revoke");
        return;
      }
      var _ := store.RevokeRefreshToken(token, client, at, "client_revoke");
    }

    method AuthenticateBearer(token: string, now: int, checkedAt: int, grantAt: int, familyAt: int)
      returns (r: Option<Authorization>)
      requires Valid()
      modifies this, store
      ensures Valid() && (State(), r) == Authenticate(old(State()), cfg, token, now, checkedAt, grantAt, familyAt)
    {
      CleanupAll(now);
      r := UseBearer(token, checkedAt, grantAt, familyAt);
    }

    method UseBearer(token: string, checkedAt: int, grantAt: int, familyAt: int) returns (r: Option<Authorization>)
      requires Valid()
      modifies store
      ensures Valid() && (State(), r) == CheckBearer(old(State()), cfg, token, checkedAt, grantAt, familyAt)
    {
      hide Inv, Evolves;
      CheckBearerSafe(State(), cfg, token, checkedAt, grantAt, familyAt);
      if token !in tokens || tokens[token].resource != cfg.resource || tokens[token].expiresAt <= checkedAt {
        return None;
      }
      var a := tokens[token];
      var g := store.GetGrant(a.grant, grantAt);
      if g.None? || g.value.status != GrantActive || g.value.owner != a.owner || g.value.client != a.client
         || g.value.resource != a.resource || g.value.profile != a.profile || g.value.scopes != a.scopes {
        return None;
      }
      var f := store.GetTokenFamily(a.family, familyAt);
      if f.None? || f.value.status != FamilyActive || f.value.grant != a.grant || f.value.owner != a.owner
         || f.value.client != a.client || f.value.resource != a.resource {
        return None;
      }
      return Some(Authorization(a.client, a.scopes, a.owner, a.grant, a.profile, a.grantExpiresAt));
    }
  }
}
