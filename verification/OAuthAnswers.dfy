/** What each endpoint of packages/auth/src/oauth-spike.js answers and leaves behind, when no
    other process commits during the request. */
module OAuthAnswers {
  import opened AuthExact
  import opened AuthInvariant
  import opened AuthTables
  import opened Numbers
  import opened OAuth
  import opened OAuthEndpoints
  import opened OAuthInvariant
  import opened Results

  /** Exactly the entries that have expired are gone. */
  lemma CleansExactly(s: Server, now: int)
    ensures var after := Cleanup(s, now);
            && after.tables == s.tables
            && (forall k :: k in after.transactions <==> k in s.transactions && now < s.transactions[k].expiresAt)
            && (forall k :: k in after.codes <==> k in s.codes && now < s.codes[k].expiresAt)
            && (forall k :: k in after.tokens <==> k in s.tokens && now < s.tokens[k].expiresAt)
            && (forall k | k in after.transactions :: after.transactions[k] == s.transactions[k])
            && (forall k | k in after.codes :: after.codes[k] == s.codes[k])
            && (forall k | k in after.tokens :: after.tokens[k] == s.tokens[k])
  {
  }

  // ---------- authorization ----------

  /** A request goes on exactly with the code response type, a client, a redirect, this
      server's resource and a well-formed S256 challenge. */
  lemma ChecksRequestExactly(s: Server, cfg: Config, req: AuthorizationRequest, now: int)
    ensures var (after, r) := Begin(s, cfg, req, now);
            var named := req.client != "" && req.redirect != "" && req.resource != "";
            && after == Cleanup(s, now)
            && (r.Ok? <==>
                  && req.responseType == "code" && named && req.resource == cfg.resource
                  && req.challengeMethod == "S256" && req.wellFormed)
            && (r == Err(UnsupportedResponseType) <==> req.responseType !in {"", "code"})
            && (r == Err(InvalidTarget) <==> req.responseType == "code" && named && req.resource != cfg.resource)
            && (r.Err? ==> r.error in {UnsupportedResponseType, InvalidTarget, InvalidRequest})
  {
  }

  /** Scopes are granted as asked for when each is supported; asking for none asks for all. */
  lemma ParsesScopeExactly(words: seq<string>, supported: set<string>)
    ensures var r := ParseScope(words, supported);
            && (r.Ok? <==> if words == [] then supported != {} else forall w | w in words :: w in supported)
            && (r.Ok? ==> forall w :: w in r.value <==> if words == [] then w in supported else w in words)
            && (r.Err? ==> r.error == InvalidScopeRequested)
  {
    var scopes := set w | w in words;
    if words != [] {
      assert words[0] in scopes;
    }
  }

  predicate Acceptable(t: Tables, client: ClientId, owner: OwnerId, redirect: string) {
    Paired(t, owner) && (client !in t.clients || StoredAs(t, client, owner, redirect))
  }

  /** A pending transaction is opened exactly for a paired owner, a client that is new or stored
      with this very redirect, supported scopes, and while there is room. It carries what was
      asked for, and its client is stored with its redirect. */
  lemma ResumesExactly(s: Server, cfg: Config, req: AuthorizationRequest, id: string, registeredAt: int, now: int)
    ensures var (after, r) := Resume(s, cfg, req, id, registeredAt, now);
            var acceptable := Acceptable(s.tables, req.client, cfg.owner, req.redirect);
            var scopes := ParseScope(req.scope, cfg.scopes);
            && (r.Ok? <==> acceptable && scopes.Ok? && |s.transactions| < cfg.maxPending)
            && (r == Err(InvalidScopeRequested) <==> acceptable && scopes.Err?)
            && (r.Err? ==>
                  r.error in {InvalidScopeRequested, TemporarilyUnavailable} && after.transactions == s.transactions)
            && (r.Ok? ==>
                  && r.value == id
                  && after.transactions ==
                     s.transactions[id := Transaction(req.client, req.redirect, req.resource, req.challenge,
                                                      scopes.value, now + cfg.transactionTtl)])
            && after.codes == s.codes && after.tokens == s.tokens
            && after.tables == s.tables.(clients := after.tables.clients)
            && (acceptable ==> EnabledFor(after.tables, req.client, cfg.owner)
                               && StoredAs(after.tables, req.client, cfg.owner, req.redirect))
            && (!acceptable ==> after == s)
            && (forall c | c in s.tables.clients && c != req.client ::
                  c in after.tables.clients && after.tables.clients[c] == s.tables.clients[c])
  {
    ParsesScopeExactly(req.scope, cfg.scopes);
    WritesClientExactly(s.tables, req.client, cfg.owner, req.redirect, registeredAt);
  }

  predicate PendingAt(s: Server, id: string, now: int) { id in s.transactions && now < s.transactions[id].expiresAt }

  /** What the insertion of the grant asks for, the secret apart. */
  predicate Grantable(t: Tables, cfg: Config, tr: Transaction, grant: GrantId) {
    && EnabledFor(t, tr.client, cfg.owner) && ScopesFit(tr.scopes, cfg.scopes)
    && cfg.grantTtl > 0 && grant !in t.grants
  }

  /** An approval succeeds exactly for a pending, unexpired transaction, with the configured
      secret, for an enabled client of the owner. It stores one active grant of what the
      transaction asked for, and one code for it. Whatever comes of it the transaction is gone,
      and a refusal stores nothing. */
  lemma ApprovesExactly(s: Server, cfg: Config, id: string, secret: string, grant: GrantId, code: string, now: int,
                        at: int)
    ensures var (after, r) := Approve(s, cfg, id, secret, grant, code, now, at);
            var clean, pending := Cleanup(s, now), PendingAt(s, id, now);
            && (r == Err(InvalidRequest) <==> !pending)
            && (r == Err(AccessDenied) <==> pending && secret != cfg.approvalSecret)
            && (r.Ok? <==>
                  pending && secret == cfg.approvalSecret && Grantable(s.tables, cfg, s.transactions[id], grant))
            && (r.Err? ==> r.error in {InvalidRequest, AccessDenied, TemporarilyUnavailable})
            && after.transactions == clean.transactions - {id} && after.tokens == clean.tokens
            && (r.Err? ==> after.tables == s.tables && after.codes == clean.codes)
            && (r.Ok? ==>
                  && var tr := s.transactions[id];
                  && r.value == code
                  && var row := Grant(cfg.owner, tr.client, tr.resource, tr.scopes, cfg.profile, at,
                                      at + cfg.grantTtl, GrantActive);
                  && after.tables == s.tables.(grants := s.tables.grants[grant := row])
                  && after.codes == clean.codes[code := Code(tr, grant, cfg.owner, cfg.profile, at + cfg.codeTtl)])
  {
  }

  // ---------- tokens ----------

  /** The bearer and the answer that names it: bound like the grant, expiring with the shorter
      of the configured and the grant's lifetime, which the answer gives in whole seconds. */
  predicate Answers(s: Server, cfg: Config, id: GrantId, grant: Grant, family: FamilyId, ids: Fresh, at: int,
                    r: TokenResponse) {
    && var expiresAt := Min(at + cfg.accessTtl, grant.expiresAt);
    && at < expiresAt && ids.access in s.tokens
    && s.tokens[ids.access] == Access(grant.client, grant.resource, grant.scopes, id, grant.owner, grant.profile,
                                      grant.expiresAt, family, expiresAt)
    && r.access == ids.access && r.refresh == ids.refresh && r.scopes == grant.scopes
    && 1000 * r.expiresIn <= expiresAt - at < 1000 * r.expiresIn + 1000
  }

  lemma AccessAnswers(s: Server, cfg: Config, id: GrantId, grant: Grant, family: FamilyId, at: int, access: string,
                      refresh: RefreshToken)
    ensures var (after, r) := IssueAccess(s, cfg, id, grant, family, at, access, refresh);
            && (r.Ok? <==> at < Min(at + cfg.accessTtl, grant.expiresAt))
            && (r.Err? ==> after == s)
            && (r.Ok? ==>
                  && after == s.(tokens := after.tokens) && access in after.tokens
                  && after.tokens == s.tokens[access := after.tokens[access]]
                  && forall id' :: Answers(after, cfg, id, grant, family, Fresh(id', refresh, access), at, r.value))
  {
  }

  /** A family of this grant with its first token, and the rest of the tables as it was. */
  predicate FamilyAdded(s: Tables, t: Tables, cfg: Config, id: GrantId, grant: Grant, ids: Fresh, at: int) {
    var expiresAt := Min(at + cfg.refreshTtl, grant.expiresAt);
    var family := Family(id, grant.owner, grant.client, grant.resource, at, expiresAt, FamilyActive, None, None, 0);
    t == s.(families := s.families[ids.family := family],
            tokens := s.tokens[ids.refresh := Token(ids.family, 0, at, expiresAt, None, TokenActive)])
  }

  /** The end of an exchange with a grant that holds: the family and the bearer of the answer. */
  lemma FamilyAnswers(s: Server, cfg: Config, id: GrantId, grant: Grant, ids: Fresh, at: int)
    requires ServerInv(s, cfg) && id in s.tables.grants && s.tables.grants[id] == grant
    requires ids.family !in s.tables.families && ids.refresh !in s.tables.tokens
    requires cfg.refreshTtl >= 1 && cfg.accessTtl >= 1
    ensures var (after, r) := FamilyThenAccess(s, cfg, id, grant, ids, at);
            && after.transactions == s.transactions && after.codes == s.codes
            && (r.Err? ==>
                  && after.tokens == s.tokens && after.tables == s.tables.(grants := after.tables.grants)
                  && after.tables == GetGrant(s.tables, id, at).0)
            && (r.Ok? ==>
                  && FamilyAdded(s.tables, after.tables, cfg, id, grant, ids, at)
                  && ids.access in after.tokens && after.tokens == s.tokens[ids.access := after.tokens[ids.access]]
                  && Answers(after, cfg, id, grant, ids.family, ids, at, r.value))
  {
    hide Inv, AccessInv, IssueAccess, Answers;
    CodeResponseWorks(s, cfg, id, grant, ids, at);
    NoTokensOf(s.tables, cfg.scopes, ids.family);
    var checked := RecheckGrant(s, cfg, id, grant, at).0;
    var added := WriteFamily(checked.tables, ids.family, FamilyRow(cfg, id, grant, at), ids.refresh).0;
    AccessAnswers(checked.(tables := added), cfg, id, grant, ids.family, at, ids.access, ids.refresh);
    assert Fresh(ids.family, ids.refresh, ids.access) == ids;
  }

  lemma NoTokensOf(t: Tables, supported: set<string>, family: FamilyId)
    requires Inv(t, supported) && family !in t.families
    ensures forall d | d in t.tokens :: t.tokens[d].family != family
  {
    forall d | d in t.tokens ensures t.tokens[d].family != family {
      assert TokenInv(t, d);
    }
  }

  /** The only row that may differ is a grant that the reading has expired. */
  predicate OnlyExpired(s: Tables, t: Tables, id: GrantId) {
    && t == s.(grants := t.grants) && t.grants.Keys == s.grants.Keys
    && forall g | g in s.grants ::
         t.grants[g] == s.grants[g]
         || (g == id && s.grants[g].status == GrantActive && t.grants[g] == s.grants[g].(status := GrantExpired))
  }

  lemma ReadOnce(t: Tables, id: GrantId, now: int)
    ensures OnlyExpired(t, ExpireGrant(t, id, now), id)
    ensures GetGrant(t, id, now).0 == ExpireGrant(t, id, now)
  {
  }

  lemma NoneExpired(t: Tables, id: GrantId)
    ensures OnlyExpired(t, t, id)
  {
  }

  /** A grant that is active after its reading was not expired by it. */
  lemma ReadActive(t: Tables, id: GrantId, now: int)
    requires id in t.grants && ExpireGrant(t, id, now).grants[id].status == GrantActive
    ensures ExpireGrant(t, id, now) == t
  {
  }

  /** The first part of an exchange: the code is taken, and its grant read if it matches. */
  lemma TakeCases(s: Server, cfg: Config, req: CodeRequest, readAt: int)
    ensures var (taken, g) := TakeCode(s, cfg, req, readAt);
            && (req.code !in s.codes ==> g.Err? && taken == s)
            && (req.code in s.codes ==>
                  && (taken == s.(codes := s.codes - {req.code}) || taken == GrantRead(s, req.code, readAt))
                  && (g.Ok? ==>
                        && taken == GrantRead(s, req.code, readAt)
                        && g.value.0 == s.codes[req.code].grant && g.value.0 in taken.tables.grants
                        && g.value.1 == taken.tables.grants[g.value.0] && g.value.1.status == GrantActive))
  {
  }

  /** What an exchange of this code comes to. */
  ghost predicate CodeAnswered(s: Server, after: Server, cfg: Config, req: CodeRequest, ids: Fresh, at: int,
                               r: Result<TokenResponse, OAuthError>) {
    && after.transactions == s.transactions && after.codes == s.codes - {req.code}
    && (r.Err? ==>
          && after.tokens == s.tokens
          && if req.code in s.codes then OnlyExpired(s.tables, after.tables, s.codes[req.code].grant)
             else after.tables == s.tables)
    && (r.Ok? ==>
          && req.code in s.codes && s.codes[req.code].grant in s.tables.grants
          && var id := s.codes[req.code].grant;
          && FamilyAdded(s.tables, after.tables, cfg, id, s.tables.grants[id], ids, at)
          && ids.access in after.tokens && after.tokens == s.tokens[ids.access := after.tokens[ids.access]]
          && Answers(after, cfg, id, s.tables.grants[id], ids.family, ids, at, r.value))
  }

  lemma CleanCodeAnswers(s: Server, cfg: Config, req: CodeRequest, ids: Fresh, readAt: int, at: int)
    requires ServerInv(s, cfg) && ids.family !in s.tables.families && ids.refresh !in s.tables.tokens
    requires cfg.refreshTtl >= 1 && cfg.accessTtl >= 1
    ensures var (after, r) := ExchangeClean(s, cfg, req, ids, readAt, at); CodeAnswered(s, after, cfg, req, ids, at, r)
  {
    hide Inv, AccessInv, TakeCode, FamilyThenAccess, FamilyAdded, Answers, OnlyExpired, ExpireGrant, GetGrant;
    TakeCases(s, cfg, req, readAt);
    if req.code !in s.codes {
      assert s.codes - {req.code} == s.codes;
    } else {
      var id := s.codes[req.code].grant;
      NoneExpired(s.tables, id);
      ReadOnce(s.tables, id, readAt);
      if TakeCode(s, cfg, req, readAt).1.Ok? {
        InTables(s, req.code, readAt);
        ReadActive(s.tables, id, readAt);
        GrantReadSafe(s, cfg, req.code, readAt);
        ReadOnce(s.tables, id, at);
        FamilyAnswers(GrantRead(s, req.code, readAt), cfg, id, s.tables.grants[id], ids, at);
      }
    }
  }

  lemma InTables(s: Server, code: string, readAt: int)
    requires code in s.codes && s.codes[code].grant in GrantRead(s, code, readAt).tables.grants
    ensures s.codes[code].grant in s.tables.grants
  {
  }

  lemma GrantReadSafe(s: Server, cfg: Config, code: string, readAt: int)
    requires ServerInv(s, cfg) && code in s.codes
    ensures ServerInv(GrantRead(s, code, readAt), cfg)
  {
    var taken := s.(codes := s.codes - {code});
    DropSafe(s, cfg, taken);
    ExpireGrantSafe(taken.tables, cfg.scopes, s.codes[code].grant, readAt);
    TablesStep(taken, cfg, ExpireGrant(taken.tables, s.codes[code].grant, readAt));
  }

  /** What a code exchange leaves behind: the code is gone in any case; an answer comes with
      one family, its first token and one bearer for the grant of the code, and a refusal with
      nothing. When there is an answer is said by ExchangesExactly. */
  lemma CodeAnswersExactly(s: Server, cfg: Config, req: CodeRequest, ids: Fresh, now: int, readAt: int, at: int)
    requires ServerInv(s, cfg) && ids.family !in s.tables.families && ids.refresh !in s.tables.tokens
    requires cfg.refreshTtl >= 1 && cfg.accessTtl >= 1
    ensures var (after, r) := ExchangeCode(s, cfg, req, ids, now, readAt, at);
            CodeAnswered(Cleanup(s, now), after, cfg, req, ids, at, r)
  {
    hide Inv, AccessInv, ExchangeClean, CodeAnswered;
    CleanupSafe(s, cfg, now);
    CleanCodeAnswers(Cleanup(s, now), cfg, req, ids, readAt, at);
  }

  lemma AfterRotationAnswers(s: Server, cfg: Config, scope: Option<seq<string>>, id: FamilyId, ids: Fresh, at: int)
    requires id in s.tables.families && s.tables.families[id].grant in s.tables.grants
    ensures var (after, r) := AccessAfterRotation(s, cfg, scope, id, ids.refresh, ids.access, at);
            var g := s.tables.families[id].grant;
            && (r.Err? ==> after == s)
            && (r.Ok? ==>
                  && after == s.(tokens := after.tokens) && ids.access in after.tokens
                  && after.tokens == s.tokens[ids.access := after.tokens[ids.access]]
                  && Answers(after, cfg, g, s.tables.grants[g], id, ids, at, r.value))
  {
    hide IssueAccess, Answers;
    var g := s.tables.families[id].grant;
    AccessAnswers(s, cfg, g, s.tables.grants[g], id, at, ids.access, ids.refresh);
    assert Fresh(ids.family, ids.refresh, ids.access) == ids;
  }

  /** What a refresh leaves behind in memory: an answer comes with one bearer for the grant of
      the token presented, a refusal with none. What it does to the tables is said by
      RefreshesExactly, and the rows it rotates by RotatesRows. */
  lemma RefreshAnswersExactly(s: Server, cfg: Config, req: RefreshRequest, ids: Fresh, now: int, readAt: int, at: int)
    requires ServerInv(s, cfg)
    ensures var (after, r) := ExchangeRefresh(s, cfg, req, ids, now, readAt, at);
            var clean := Cleanup(s, now);
            && after.transactions == clean.transactions && after.codes == clean.codes
            && (r.Err? ==> after.tokens == clean.tokens)
            && (r.Ok? ==>
                  && Rotatable(s.tables, req.token, ids.refresh, req.client, req.resource, readAt)
                  && var f := s.tables.tokens[req.token].family;
                  && ids.access in after.tokens && after.tokens == clean.tokens[ids.access := after.tokens[ids.access]]
                  && Answers(after, cfg, s.tables.families[f].grant, GrantOf(s.tables, req.token), f, ids, at, r.value))
  {
    hide Rotate, Rotatable, Inv, Answers, AccessAfterRotation;
    var clean := Cleanup(s, now);
    RotatesExactly(s.tables, cfg.scopes, req.token, ids.refresh, req.client, req.resource, readAt);
    var (rotated, id) := RotateFor(clean, cfg, req, ids.refresh, readAt);
    if id.Ok? {
      RotatedRows(s.tables, req.token, ids.refresh, req.client, req.resource, readAt);
      RotatesRows(s.tables, req.token, ids.refresh, req.client, req.resource, readAt);
      AfterRotationAnswers(rotated, cfg, req.scope, id.value, ids, at);
      assert ExchangeRefresh(s, cfg, req, ids, now, readAt, at) ==
             AccessAfterRotation(rotated, cfg, req.scope, id.value, ids.refresh, ids.access, at);
      var f := s.tables.tokens[req.token].family;
      assert id.value == f && rotated.tables.families[f].grant == s.tables.families[f].grant;
      assert rotated.tables.grants[s.tables.families[f].grant] == GrantOf(s.tables, req.token);
    } else {
      assert ExchangeRefresh(s, cfg, req, ids, now, readAt, at) == (rotated, Err(id.error));
    }
  }

  /** Revocation: an unexpired access token, of the named client if one is named, is dropped and
      its family revoked; anything else is tried as a refresh token of that client. */
  lemma RevokesExactly(s: Server, cfg: Config, token: string, client: Option<ClientId>, now: int, at: int)
    requires ServerInv(s, cfg)
    ensures var after, clean := Revoke(s, token, client, now, at), Cleanup(s, now);
            var bearer := token in clean.tokens && (client == None || client == Some(clean.tokens[token].client));
            && after.transactions == clean.transactions && after.codes == clean.codes
            && after.tokens == (if bearer then clean.tokens - {token} else clean.tokens)
            && (bearer ==>
                  && var f := clean.tokens[token].family;
                  && var hit := set g | g in {f} && g in s.tables.families
                                        && s.tables.families[g].status == FamilyActive;
                  && f in s.tables.families
                  && after.tables == s.tables.(families := after.tables.families, tokens := after.tables.tokens)
                  && FamiliesEnd(s.tables, after.tables, hit, FamilyRevoked, at, "client_revoke")
                  && TokensEnd(s.tables, after.tables, {f}))
            && (!bearer ==>
                  after.tables == RevokeRefreshToken(s.tables, token, client, at, "client_revoke").0)
  {
    hide Inv, RevokeTokenFamily, RevokeRefreshToken, FamiliesEnd, TokensEnd;
    var clean := Cleanup(s, now);
    if token in clean.tokens {
      BearerRows(s, cfg, token);
      var a := clean.tokens[token];
      RevokesFamilyExactly(s.tables, a.family, a.owner, at, "client_revoke");
    }
  }

  lemma BearerRows(s: Server, cfg: Config, token: string)
    requires ServerInv(s, cfg) && token in s.tokens
    ensures s.tokens[token].family in s.tables.families
    ensures s.tables.families[s.tokens[token].family].owner == s.tokens[token].owner
  {
    var a := s.tokens[token];
    assert AccessInv(s.tables, a);
    assert FamilyInv(s.tables, a.family);
  }
}
