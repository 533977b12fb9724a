/** What every endpoint, and every part of one, keeps. */
module OAuthInvariant {
  import opened AuthInvariant
  import opened AuthTables
  import opened OAuth
  import opened Results

  /** An access token names a grant and a family of that grant, carries the grant's own
      binding, and expires no later than the grant. */
  ghost predicate AccessInv(t: Tables, a: Access) {
    && a.grant in t.grants
    && var g := t.grants[a.grant];
    && a.client == g.client && a.resource == g.resource && a.scopes == g.scopes
    && a.owner == g.owner && a.profile == g.profile
    && a.expiresAt <= a.grantExpiresAt == g.expiresAt
    && a.family in t.families && t.families[a.family].grant == a.grant
  }

  ghost predicate ServerInv(s: Server, cfg: Config) {
    && Inv(s.tables, cfg.scopes)
    && |s.transactions| <= cfg.maxPending
    && forall k | k in s.tokens :: AccessInv(s.tables, s.tokens[k])
  }

  /** One request: the invariant holds afterwards and the rows evolved. */
  ghost predicate ServerSafe(s: Server, cfg: Config, after: Server) {
    ServerInv(s, cfg) ==> ServerInv(after, cfg) && Evolves(s.tables, after.tables)
  }

  lemma AccessEvolves(s: Tables, t: Tables, a: Access)
    requires AccessInv(s, a) && Evolves(s, t)
    ensures AccessInv(t, a)
  {
  }

  lemma TablesStep(s: Server, cfg: Config, t: Tables)
    requires Safe(s.tables, t, cfg.scopes)
    ensures ServerSafe(s, cfg, s.(tables := t))
  {
    if ServerInv(s, cfg) {
      forall k | k in s.tokens ensures AccessInv(t, s.tokens[k]) {
        AccessEvolves(s.tables, t, s.tokens[k]);
      }
    }
  }

  lemma SafeThen(s: Server, cfg: Config, mid: Server, after: Server)
    requires ServerSafe(s, cfg, mid) && ServerSafe(mid, cfg, after)
    ensures ServerSafe(s, cfg, after)
  {
    if ServerInv(s, cfg) {
      EvolvesTransitive(s.tables, mid.tables, after.tables);
    }
  }

  lemma {:induction false} CardinalitySubset<K>(a: set<K>, b: set<K>)
    requires a <= b
    ensures |a| <= |b|
  {
    if a != {} {
      var x :| x in a;
      CardinalitySubset(a - {x}, b - {x});
    }
  }

  /** Dropping transactions, codes or tokens is always safe. */
  lemma DropSafe(s: Server, cfg: Config, after: Server)
    requires after.tables == s.tables && after.transactions.Keys <= s.transactions.Keys
    requires forall k | k in after.tokens :: k in s.tokens && after.tokens[k] == s.tokens[k]
    ensures ServerSafe(s, cfg, after)
  {
    CardinalitySubset(after.transactions.Keys, s.transactions.Keys);
    assert |after.transactions| == |after.transactions.Keys|;
    EvolvesReflexive(s.tables);
  }

  lemma CleanupSafe(s: Server, cfg: Config, now: int)
    ensures ServerSafe(s, cfg, Cleanup(s, now))
  {
    DropSafe(s, cfg, Cleanup(s, now));
  }

  // ---------- parts of endpoints ----------

  lemma AddTransactionSafe(s: Server, cfg: Config, req: AuthorizationRequest, id: string, registeredAt: int, now: int)
    requires cfg.owner in s.tables.owners
    ensures ServerSafe(s, cfg, AddTransaction(s, cfg, req, id, registeredAt, now).0)
  {
    hide Inv, Evolves, AccessInv, WriteClient, ParseScope;
    var tables := WriteClient(s.tables, req.client, cfg.owner, req.redirect, registeredAt).0;
    WriteClientSafe(s.tables, cfg.scopes, req.client, cfg.owner, req.redirect, registeredAt);
    TablesStep(s, cfg, tables);
    var after := AddTransaction(s, cfg, req, id, registeredAt, now).0;
    if after.transactions != s.transactions {
      CardinalitySubset(after.transactions.Keys, s.transactions.Keys + {id});
      assert |after.transactions.Keys| <= |s.transactions.Keys + {id}| <= |s.transactions| + 1;
    }
  }

  lemma TakeTransactionSafe(s: Server, cfg: Config, id: string, secret: string, at: int)
    ensures ServerSafe(s, cfg, TakeTransaction(s, cfg, id, secret, at).0)
  {
    DropSafe(s, cfg, TakeTransaction(s, cfg, id, secret, at).0);
  }

  lemma AddCodeSafe(s: Server, cfg: Config, t: Transaction, grant: GrantId, code: string, at: int)
    requires GrantFits(s.tables, cfg.scopes, NewGrant(cfg, t, at))
    ensures ServerSafe(s, cfg, AddCode(s, cfg, t, grant, code, at).0)
  {
    WriteGrantSafe(s.tables, cfg.scopes, grant, NewGrant(cfg, t, at));
    TablesStep(s, cfg, WriteGrant(s.tables, grant, NewGrant(cfg, t, at)).0);
  }

  /** The row of a grant as it was read when it was active. */
  ghost predicate ReadOf(t: Tables, id: GrantId, row: Grant) {
    id in t.grants && row.status == GrantActive && t.grants[id].(status := GrantActive) == row
  }

  lemma ReadOfEvolves(s: Tables, t: Tables, id: GrantId, row: Grant)
    requires ReadOf(s, id, row) && Evolves(s, t)
    ensures ReadOf(t, id, row)
  {
    assert GrantEvolves(s.grants[id], t.grants[id]);
  }

  lemma IssueSafe(s: Server, cfg: Config, id: GrantId, grant: Grant, family: FamilyId, at: int, access: string,
                  refresh: RefreshToken)
    requires ReadOf(s.tables, id, grant)
    requires family in s.tables.families && s.tables.families[family].grant == id
    ensures ServerSafe(s, cfg, IssueAccess(s, cfg, id, grant, family, at, access, refresh).0)
  {
    EvolvesReflexive(s.tables);
  }

  lemma TakeCodeSafe(s: Server, cfg: Config, req: CodeRequest, readAt: int)
    ensures ServerSafe(s, cfg, TakeCode(s, cfg, req, readAt).0)
    ensures var (after, g) := TakeCode(s, cfg, req, readAt); g.Ok? ==> ReadOf(after.tables, g.value.0, g.value.1)
  {
    hide Inv, Evolves, AccessInv;
    if req.code in s.codes {
      var code := s.codes[req.code];
      var taken := s.(codes := s.codes - {req.code});
      DropSafe(s, cfg, taken);
      ExpireGrantSafe(taken.tables, cfg.scopes, code.grant, readAt);
      TablesStep(taken, cfg, GetGrant(taken.tables, code.grant, readAt).0);
      SafeThen(s, cfg, taken, taken.(tables := GetGrant(taken.tables, code.grant, readAt).0));
    } else {
      DropSafe(s, cfg, s);
    }
  }

  lemma RecheckSafe(s: Server, cfg: Config, id: GrantId, grant: Grant, at: int)
    requires ReadOf(s.tables, id, grant)
    ensures var (after, ok) := RecheckGrant(s, cfg, id, grant, at);
            && ServerSafe(s, cfg, after) && ReadOf(after.tables, id, grant)
            && (ok ==> FamilyFits(after.tables, FamilyRow(cfg, id, grant, at))
                       && after.tables.grants[id].status == GrantActive)
  {
    ExpireGrantSafe(s.tables, cfg.scopes, id, at);
    TablesStep(s, cfg, RecheckGrant(s, cfg, id, grant, at).0.tables);
  }

  lemma AddFamilySafe(s: Server, cfg: Config, id: GrantId, grant: Grant, ids: Fresh, at: int)
    requires ReadOf(s.tables, id, grant) && FamilyFits(s.tables, FamilyRow(cfg, id, grant, at))
    ensures ServerSafe(s, cfg, AddFamily(s, cfg, id, grant, ids, at).0)
  {
    hide Inv, Evolves, AccessInv;
    var row := FamilyRow(cfg, id, grant, at);
    WriteFamilySafe(s.tables, cfg.scopes, ids.family, row, ids.refresh);
    var (tables, f) := WriteFamily(s.tables, ids.family, row, ids.refresh);
    TablesStep(s, cfg, tables);
    if f.Ok? {
      var stored := s.(tables := tables);
      IssueSafe(stored, cfg, id, grant, ids.family, at, ids.access, ids.refresh);
      SafeThen(s, cfg, stored, AddFamily(s, cfg, id, grant, ids, at).0);
    }
  }

  lemma RotateForSafe(s: Server, cfg: Config, req: RefreshRequest, next: RefreshToken, readAt: int)
    ensures ServerSafe(s, cfg, RotateFor(s, cfg, req, next, readAt).0)
  {
    EvolvesReflexive(s.tables);
    RotateSafe(s.tables, cfg.scopes, req.token, next, req.client, req.resource, readAt);
    TablesStep(s, cfg, Rotate(s.tables, req.token, next, req.client, req.resource, readAt).0);
  }

  lemma AfterRotationSafe(s: Server, cfg: Config, scope: Option<seq<string>>, id: FamilyId, next: RefreshToken,
                          access: string, at: int)
    requires id in s.tables.families && s.tables.families[id].grant in s.tables.grants
    ensures ServerSafe(s, cfg, AccessAfterRotation(s, cfg, scope, id, next, access, at).0)
  {
    hide Inv, AccessInv, IssueAccess, RequestedScopes;
    EvolvesReflexive(s.tables);
    var g := s.tables.families[id].grant;
    if s.tables.grants[g].status == GrantActive {
      IssueSafe(s, cfg, g, s.tables.grants[g], id, at, access, next);
    }
  }

  lemma ReadBearerSafe(s: Server, cfg: Config, token: string, checkedAt: int, grantAt: int)
    ensures ServerSafe(s, cfg, ReadBearer(s, cfg, token, checkedAt, grantAt).0)
  {
    hide Inv, AccessInv, ExpireGrant;
    EvolvesReflexive(s.tables);
    if token in s.tokens {
      var a := s.tokens[token];
      ExpireGrantSafe(s.tables, cfg.scopes, a.grant, grantAt);
      TablesStep(s, cfg, GetGrant(s.tables, a.grant, grantAt).0);
    }
  }

  lemma CheckFamilySafe(s: Server, cfg: Config, a: Access, at: int)
    ensures ServerSafe(s, cfg, CheckFamily(s, a, at).0)
  {
    GetTokenFamilySafe(s.tables, cfg.scopes, a.family, at);
    TablesStep(s, cfg, GetTokenFamily(s.tables, a.family, at).0);
  }

  lemma RevokeEitherSafe(s: Server, cfg: Config, token: string, client: Option<ClientId>, at: int)
    ensures ServerSafe(s, cfg, RevokeEither(s, token, client, at))
  {
    if token in s.tokens && (client.None? || s.tokens[token].client == client.value) {
      var a := s.tokens[token];
      var dropped := s.(tokens := s.tokens - {token});
      DropSafe(s, cfg, dropped);
      RevokeTokenFamilySafe(dropped.tables, cfg.scopes, a.family, a.owner, at, "client_revoke");
      TablesStep(dropped, cfg, RevokeTokenFamily(dropped.tables, a.family, a.owner, at, "client_revoke").0);
      SafeThen(s, cfg, dropped, RevokeEither(s, token, client, at));
    } else {
      RevokeRefreshTokenSafe(s.tables, cfg.scopes, token, client, at, "client_revoke");
      TablesStep(s, cfg, RevokeRefreshToken(s.tables, token, client, at, "client_revoke").0);
    }
  }

  lemma RevokeSafe(s: Server, cfg: Config, token: string, client: Option<ClientId>, now: int, at: int)
    ensures ServerSafe(s, cfg, Revoke(s, token, client, now, at))
  {
    CleanupSafe(s, cfg, now);
    RevokeEitherSafe(Cleanup(s, now), cfg, token, client, at);
    SafeThen(s, cfg, Cleanup(s, now), Revoke(s, token, client, now, at));
  }

  // ---------- undisturbed endpoints ----------

  lemma ResumeSafe(s: Server, cfg: Config, req: AuthorizationRequest, id: string, registeredAt: int, now: int)
    ensures ServerSafe(s, cfg, Resume(s, cfg, req, id, registeredAt, now).0)
  {
    EvolvesReflexive(s.tables);
    if Paired(s.tables, cfg.owner) {
      AddTransactionSafe(s, cfg, req, id, registeredAt, now);
    }
  }

  lemma ApproveCleanSafe(s: Server, cfg: Config, id: string, secret: string, grant: GrantId, code: string, at: int)
    ensures ServerSafe(s, cfg, ApproveClean(s, cfg, id, secret, grant, code, at).0)
  {
    var (taken, t) := TakeTransaction(s, cfg, id, secret, at);
    TakeTransactionSafe(s, cfg, id, secret, at);
    if t.Ok? && ServerInv(s, cfg) {
      CheckedGrantFits(s.tables, cfg.scopes, NewGrant(cfg, t.value, at));
      AddCodeSafe(taken, cfg, t.value, grant, code, at);
      SafeThen(s, cfg, taken, ApproveClean(s, cfg, id, secret, grant, code, at).0);
    }
  }

  lemma FamilyThenAccessSafe(s: Server, cfg: Config, id: GrantId, grant: Grant, ids: Fresh, at: int)
    requires ReadOf(s.tables, id, grant)
    ensures ServerSafe(s, cfg, FamilyThenAccess(s, cfg, id, grant, ids, at).0)
  {
    hide Inv, Evolves, AccessInv;
    var (checked, ok) := RecheckGrant(s, cfg, id, grant, at);
    RecheckSafe(s, cfg, id, grant, at);
    if ok {
      AddFamilySafe(checked, cfg, id, grant, ids, at);
      SafeThen(s, cfg, checked, AddFamily(checked, cfg, id, grant, ids, at).0);
    }
  }

  lemma ExchangeCleanSafe(s: Server, cfg: Config, req: CodeRequest, ids: Fresh, readAt: int, at: int)
    ensures ServerSafe(s, cfg, ExchangeClean(s, cfg, req, ids, readAt, at).0)
  {
    hide Inv, Evolves, AccessInv, TakeCode, FamilyThenAccess;
    var (taken, g) := TakeCode(s, cfg, req, readAt);
    TakeCodeSafe(s, cfg, req, readAt);
    if g.Ok? {
      FamilyThenAccessSafe(taken, cfg, g.value.0, g.value.1, ids, at);
      SafeThen(s, cfg, taken, FamilyThenAccess(taken, cfg, g.value.0, g.value.1, ids, at).0);
    }
  }

  lemma RefreshCleanSafe(s: Server, cfg: Config, req: RefreshRequest, ids: Fresh, readAt: int, at: int)
    ensures ServerSafe(s, cfg, RefreshClean(s, cfg, req, ids, readAt, at).0)
  {
    hide Inv, Evolves, AccessInv;
    var (rotated, id) := RotateFor(s, cfg, req, ids.refresh, readAt);
    RotateForSafe(s, cfg, req, ids.refresh, readAt);
    if id.Ok? {
      AfterRotationSafe(rotated, cfg, req.scope, id.value, ids.refresh, ids.access, at);
      SafeThen(s, cfg, rotated, RefreshClean(s, cfg, req, ids, readAt, at).0);
    }
  }

  lemma CheckBearerSafe(s: Server, cfg: Config, token: string, checkedAt: int, grantAt: int, familyAt: int)
    ensures ServerSafe(s, cfg, CheckBearer(s, cfg, token, checkedAt, grantAt, familyAt).0)
  {
    hide Inv, Evolves, AccessInv;
    var (read, a) := ReadBearer(s, cfg, token, checkedAt, grantAt);
    ReadBearerSafe(s, cfg, token, checkedAt, grantAt);
    if a.Some? {
      CheckFamilySafe(read, cfg, a.value, familyAt);
      SafeThen(s, cfg, read, CheckFamily(read, a.value, familyAt).0);
    }
  }
}
