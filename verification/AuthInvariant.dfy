/** What every commit to the auth store keeps, whatever was read before it and whatever
    came in between, and how rows may evolve. */
module AuthInvariant {
  import opened Results
  import opened AuthTables

  // ---------- the invariant, row by row ----------

  ghost predicate ClientInv(t: Tables, c: ClientId) {
    c in t.clients ==> t.clients[c].owner in t.owners
  }

  ghost predicate GrantInv(t: Tables, supported: set<string>, g: GrantId) {
    g in t.grants ==>
      var row := t.grants[g];
      && row.owner in t.owners
      && row.client in t.clients && t.clients[row.client].owner == row.owner
      && row.scopes != {} && row.scopes <= supported
      && row.grantedAt < row.expiresAt
  }

  predicate ReasonFits(status: FamilyStatus, reason: Option<string>) {
    match status
    case FamilyActive => reason == None
    case FamilyExpired => reason == Some("expired")
    case FamilyCompromised => reason == Some("refresh_reuse")
    case FamilyReset => reason == Some("owner_reset")
    case FamilyRevoked => reason.Some?
  }

  ghost predicate HasGeneration(t: Tables, f: FamilyId, k: nat) {
    exists d :: d in t.tokens && t.tokens[d].family == f && t.tokens[d].generation == k
  }

  ghost predicate FamilyInv(t: Tables, f: FamilyId) {
    f in t.families ==>
      var row := t.families[f];
      && row.grant in t.grants
      && var grant := t.grants[row.grant];
      && row.owner == grant.owner && row.client == grant.client && row.resource == grant.resource
      && row.createdAt < row.expiresAt <= grant.expiresAt
      && ReasonFits(row.status, row.reason) && (row.status == FamilyActive <==> row.revokedAt.None?)
  }

  /** A family's tokens fill the generations 0..generation. */
  ghost predicate Filled(t: Tables, f: FamilyId) {
    f in t.families ==> forall k: nat | k <= t.families[f].generation :: HasGeneration(t, f, k)
  }

  ghost predicate TokenInv(t: Tables, d: RefreshToken) {
    d in t.tokens ==>
      var row := t.tokens[d];
      && row.family in t.families
      && var family := t.families[row.family];
      && row.generation <= family.generation
      && row.expiresAt == family.expiresAt
      && row.status == (if row.generation < family.generation then TokenConsumed
                        else if family.status == FamilyActive then TokenActive else TokenRevoked)
      && (row.status == TokenConsumed <==> row.consumedAt.Some?)
  }

  ghost predicate GenerationsUnique(t: Tables) {
    forall a, b | a in t.tokens && b in t.tokens
                  && t.tokens[a].family == t.tokens[b].family && t.tokens[a].generation == t.tokens[b].generation ::
      a == b
  }

  ghost predicate SingleOwner(t: Tables) { forall a, b | a in t.owners && b in t.owners :: a == b }

  ghost predicate Inv(t: Tables, supported: set<string>) {
    && SingleOwner(t) && GenerationsUnique(t)
    && (forall c :: ClientInv(t, c))
    && (forall g :: GrantInv(t, supported, g))
    && (forall f :: FamilyInv(t, f))
    && (forall f :: Filled(t, f))
    && (forall d :: TokenInv(t, d))
  }

  // ---------- how rows evolve ----------

  ghost predicate GrantEvolves(a: Grant, b: Grant) {
    b.(status := a.status) == a && (a.status == GrantActive || b.status == a.status)
  }

  ghost predicate ClientEvolves(a: Client, b: Client) { b.owner == a.owner && b.redirect == a.redirect }

  ghost predicate FamilyEvolves(a: Family, b: Family) {
    && b.grant == a.grant && b.owner == a.owner && b.client == a.client && b.resource == a.resource
    && b.createdAt == a.createdAt && b.expiresAt == a.expiresAt
    && a.generation <= b.generation
    && (a.status != FamilyActive ==> b.status != FamilyActive && b.generation == a.generation)
    && (!Open(a.status) ==> b == a)
  }

  ghost predicate TokenEvolves(a: Token, b: Token) {
    b.(status := a.status, consumedAt := a.consumedAt) == a && (a.status == TokenActive || b == a)
  }

  /** Rows are never deleted, never rebound and never come back to life. */
  ghost predicate Evolves(s: Tables, t: Tables) {
    && s.owners.Keys <= t.owners.Keys
    && (forall c | c in s.clients :: c in t.clients && ClientEvolves(s.clients[c], t.clients[c]))
    && (forall g | g in s.grants :: g in t.grants && GrantEvolves(s.grants[g], t.grants[g]))
    && (forall f | f in s.families :: f in t.families && FamilyEvolves(s.families[f], t.families[f]))
    && (forall d | d in s.tokens :: d in t.tokens && TokenEvolves(s.tokens[d], t.tokens[d]))
  }

  lemma EvolvesTransitive(s: Tables, t: Tables, u: Tables)
    requires Evolves(s, t) && Evolves(t, u)
    ensures Evolves(s, u)
  {
    forall c | c in s.clients ensures c in u.clients && ClientEvolves(s.clients[c], u.clients[c]) {
      assert c in t.clients && ClientEvolves(s.clients[c], t.clients[c]);
      assert ClientEvolves(t.clients[c], u.clients[c]);
    }
    forall g | g in s.grants ensures g in u.grants && GrantEvolves(s.grants[g], u.grants[g]) {
      assert g in t.grants && GrantEvolves(s.grants[g], t.grants[g]);
      assert GrantEvolves(t.grants[g], u.grants[g]);
    }
    forall f | f in s.families ensures f in u.families && FamilyEvolves(s.families[f], u.families[f]) {
      assert f in t.families && FamilyEvolves(s.families[f], t.families[f]);
      assert FamilyEvolves(t.families[f], u.families[f]);
    }
    forall d | d in s.tokens ensures d in u.tokens && TokenEvolves(s.tokens[d], u.tokens[d]) {
      assert d in t.tokens && TokenEvolves(s.tokens[d], t.tokens[d]);
      assert TokenEvolves(t.tokens[d], u.tokens[d]);
    }
  }

  /** Both at once: what each transaction is shown to do. */
  ghost predicate Safe(s: Tables, t: Tables, supported: set<string>) {
    Inv(s, supported) ==> Inv(t, supported) && Evolves(s, t)
  }

  // ---------- transactions that end families ----------

  lemma FilledByTokens(s: Tables, t: Tables, f: FamilyId)
    requires Filled(s, f)
             && (f in t.families ==> f in s.families && t.families[f].generation == s.families[f].generation)
    requires forall d | d in s.tokens ::
               d in t.tokens && t.tokens[d].family == s.tokens[d].family
               && t.tokens[d].generation == s.tokens[d].generation
    ensures Filled(t, f)
  {
    if f in t.families {
      forall k: nat | k <= t.families[f].generation ensures HasGeneration(t, f, k) {
        assert HasGeneration(s, f, k);
      }
    }
  }

  /** `hit` are the families a revocation may end: open ones, among them every active
      family of `all`. */
  ghost predicate Endable(s: Tables, hit: set<FamilyId>, all: set<FamilyId>, status: FamilyStatus, reason: string) {
    && status != FamilyActive && ReasonFits(status, Some(reason))
    && hit <= all
    && forall f | f in all && f in s.families ::
         && (s.families[f].status == FamilyActive ==> f in hit)
         && (f in hit ==> Open(s.families[f].status))
         && (f in hit && status == FamilyCompromised ==> s.families[f].status == FamilyActive)
  }

  lemma EndAllFamily(s: Tables, hit: set<FamilyId>, all: set<FamilyId>, status: FamilyStatus, at: int, reason: string,
                     f: FamilyId)
    requires Endable(s, hit, all, status, reason) && FamilyInv(s, f)
    ensures FamilyInv(EndAll(s, hit, all, status, at, reason), f)
  {
  }

  lemma EndAllToken(s: Tables, hit: set<FamilyId>, all: set<FamilyId>, status: FamilyStatus, at: int, reason: string,
                    d: RefreshToken)
    requires Endable(s, hit, all, status, reason) && TokenInv(s, d)
    ensures TokenInv(EndAll(s, hit, all, status, at, reason), d)
  {
  }

  lemma EndAllEvolves(s: Tables, hit: set<FamilyId>, all: set<FamilyId>, status: FamilyStatus, at: int, reason: string)
    requires Endable(s, hit, all, status, reason)
    ensures Evolves(s, EndAll(s, hit, all, status, at, reason))
  {
  }

  lemma EndAllUnique(s: Tables, hit: set<FamilyId>, all: set<FamilyId>, status: FamilyStatus, at: int, reason: string)
    requires GenerationsUnique(s)
    ensures GenerationsUnique(EndAll(s, hit, all, status, at, reason))
  {
  }

  lemma EndAllSafe(s: Tables, supported: set<string>, hit: set<FamilyId>, all: set<FamilyId>,
                   status: FamilyStatus, at: int, reason: string)
    requires Inv(s, supported) && Endable(s, hit, all, status, reason)
    ensures Inv(EndAll(s, hit, all, status, at, reason), supported)
    ensures Evolves(s, EndAll(s, hit, all, status, at, reason))
  {
    var t := EndAll(s, hit, all, status, at, reason);
    EndAllEvolves(s, hit, all, status, at, reason);
    EndAllUnique(s, hit, all, status, at, reason);
    forall f ensures FamilyInv(t, f) {
      EndAllFamily(s, hit, all, status, at, reason, f);
    }
    forall f ensures Filled(t, f) {
      FilledByTokens(s, t, f);
    }
    forall d ensures TokenInv(t, d) {
      EndAllToken(s, hit, all, status, at, reason, d);
    }
    forall c ensures ClientInv(t, c) { assert ClientInv(s, c); }
    forall g ensures GrantInv(t, supported, g) { assert GrantInv(s, supported, g); }
  }

  // ---------- changes to one of the other tables ----------

  lemma GrantsSafe(s: Tables, supported: set<string>, m: map<GrantId, Grant>)
    requires Inv(s, supported) && m.Keys == s.grants.Keys
    requires forall g | g in m :: GrantEvolves(s.grants[g], m[g])
    ensures Inv(s.(grants := m), supported) && Evolves(s, s.(grants := m))
  {
    var t := s.(grants := m);
    forall g ensures GrantInv(t, supported, g) { assert GrantInv(s, supported, g); }
    forall f ensures FamilyInv(t, f) { assert FamilyInv(s, f); }
    forall f ensures Filled(t, f) { FilledByTokens(s, t, f); }
    forall d ensures TokenInv(t, d) { assert TokenInv(s, d); }
    forall c ensures ClientInv(t, c) { assert ClientInv(s, c); }
  }

  lemma ClientsSafe(s: Tables, supported: set<string>, m: map<ClientId, Client>)
    requires Inv(s, supported)
    requires forall c | c in s.clients :: c in m && ClientEvolves(s.clients[c], m[c])
    requires forall c | c in m :: m[c].owner in s.owners
    ensures Inv(s.(clients := m), supported) && Evolves(s, s.(clients := m))
  {
    var t := s.(clients := m);
    forall g ensures GrantInv(t, supported, g) { assert GrantInv(s, supported, g); }
    forall f ensures FamilyInv(t, f) { assert FamilyInv(s, f); }
    forall f ensures Filled(t, f) { FilledByTokens(s, t, f); }
    forall d ensures TokenInv(t, d) { assert TokenInv(s, d); }
  }

  lemma OwnerSafe(s: Tables, supported: set<string>, owner: OwnerId, row: Owner)
    requires Inv(s, supported) && (s.owners == map[] || owner in s.owners)
    ensures Inv(s.(owners := s.owners[owner := row]), supported)
    ensures Evolves(s, s.(owners := s.owners[owner := row]))
  {
    var t := s.(owners := s.owners[owner := row]);
    forall c ensures ClientInv(t, c) { assert ClientInv(s, c); }
    forall g ensures GrantInv(t, supported, g) { assert GrantInv(s, supported, g); }
    forall f ensures FamilyInv(t, f) { assert FamilyInv(s, f); }
    forall f ensures Filled(t, f) { FilledByTokens(s, t, f); }
    forall d ensures TokenInv(t, d) { assert TokenInv(s, d); }
  }

  // ---------- each transaction ----------

  lemma EvolvesReflexive(s: Tables)
    ensures Evolves(s, s)
  {
  }

  lemma BootstrapSafe(s: Tables, supported: set<string>, owner: OwnerId, secret: string, at: int, expiresAt: int)
    ensures Safe(s, CreateOwnerBootstrap(s, owner, secret, at, expiresAt).0, supported)
    ensures Safe(s, WriteConsumed(s, owner, at).0, supported)
    ensures Safe(s, ConsumeOwnerBootstrap(s, owner, secret, at).0, supported)
  {
    if Inv(s, supported) {
      EvolvesReflexive(s);
      if s.owners == map[] {
        OwnerSafe(s, supported, owner, Owner(secret, expiresAt, None, true));
      }
      if owner in s.owners {
        OwnerSafe(s, supported, owner, s.owners[owner].(bootstrapConsumedAt := Some(at)));
      }
    }
  }

  lemma WriteClientSafe(s: Tables, supported: set<string>, client: ClientId, owner: OwnerId, redirect: string, at: int)
    requires owner in s.owners
    ensures Safe(s, WriteClient(s, client, owner, redirect, at).0, supported)
  {
    if Inv(s, supported) {
      EvolvesReflexive(s);
      var t := WriteClient(s, client, owner, redirect, at).0;
      forall c | c in t.clients ensures t.clients[c].owner in s.owners { assert ClientInv(s, c); }
      ClientsSafe(s, supported, t.clients);
    }
  }

  lemma RegisterSafe(s: Tables, supported: set<string>, client: ClientId, owner: OwnerId, redirect: string, at: int)
    ensures Safe(s, RegisterClient(s, client, owner, redirect, at).0, supported)
  {
    EvolvesReflexive(s);
    if Paired(s, owner) {
      WriteClientSafe(s, supported, client, owner, redirect, at);
    }
  }

  lemma ExpireGrantSafe(s: Tables, supported: set<string>, id: GrantId, now: int)
    ensures Safe(s, ExpireGrant(s, id, now), supported)
  {
    if Inv(s, supported) {
      EvolvesReflexive(s);
      GrantsSafe(s, supported, ExpireGrant(s, id, now).grants);
    }
  }

  /** A grant row that fits its client, whether or not that client is still enabled. */
  ghost predicate GrantFits(t: Tables, supported: set<string>, grant: Grant) {
    && grant.owner in t.owners
    && grant.client in t.clients && t.clients[grant.client].owner == grant.owner
    && grant.scopes != {} && grant.scopes <= supported && grant.grantedAt < grant.expiresAt
  }

  lemma WriteGrantSafe(s: Tables, supported: set<string>, id: GrantId, grant: Grant)
    requires GrantFits(s, supported, grant)
    ensures Safe(s, WriteGrant(s, id, grant).0, supported)
  {
    if Inv(s, supported) {
      EvolvesReflexive(s);
      var t := WriteGrant(s, id, grant).0;
      forall g ensures GrantInv(t, supported, g) { assert GrantInv(s, supported, g); }
      forall f ensures FamilyInv(t, f) { assert FamilyInv(s, f); }
      forall f ensures Filled(t, f) { FilledByTokens(s, t, f); }
      forall d ensures TokenInv(t, d) { assert TokenInv(s, d); }
      forall c ensures ClientInv(t, c) { assert ClientInv(s, c); }
    }
  }

  lemma CheckedGrantFits(s: Tables, supported: set<string>, grant: Grant)
    requires Inv(s, supported) && GrantRefusal(s, supported, grant).None?
    ensures GrantFits(s, supported, grant)
  {
    assert ClientInv(s, grant.client);
  }

  lemma CreateGrantSafe(s: Tables, supported: set<string>, id: GrantId, grant: Grant)
    ensures Safe(s, CreateGrant(s, supported, id, grant).0, supported)
  {
    EvolvesReflexive(s);
    if Inv(s, supported) && GrantRefusal(s, supported, grant).None? {
      CheckedGrantFits(s, supported, grant);
      WriteGrantSafe(s, supported, id, grant);
    }
  }

  lemma ExpireFamilySafe(s: Tables, supported: set<string>, id: FamilyId, now: int)
    ensures Safe(s, ExpireFamily(s, id, now), supported)
  {
    if Inv(s, supported) {
      EndAllSafe(s, supported, ActiveOnly(s, id), {id}, FamilyExpired, now, "expired");
    }
  }

  lemma GetTokenFamilySafe(s: Tables, supported: set<string>, id: FamilyId, now: int)
    ensures Safe(s, GetTokenFamily(s, id, now).0, supported)
  {
    EvolvesReflexive(s);
    ExpireFamilySafe(s, supported, id, now);
  }

  lemma RevokeTokenFamilySafe(s: Tables, supported: set<string>, id: FamilyId, owner: OwnerId, at: int, reason: string)
    ensures Safe(s, RevokeTokenFamily(s, id, owner, at, reason).0, supported)
  {
    EvolvesReflexive(s);
    if Inv(s, supported) {
      EndAllSafe(s, supported, ActiveOnly(s, id), {id}, FamilyRevoked, at, reason);
    }
  }

  lemma RevokeRefreshTokenSafe(s: Tables, supported: set<string>, token: RefreshToken, client: Option<ClientId>,
                               at: int, reason: string)
    ensures Safe(s, RevokeRefreshToken(s, token, client, at, reason).0, supported)
  {
    EvolvesReflexive(s);
    if Joined(s, token) || (token in s.tokens && s.tokens[token].family in s.families) {
      var id := s.tokens[token].family;
      RevokeTokenFamilySafe(s, supported, id, s.families[id].owner, at, reason);
    }
  }

  lemma RevokeThenEndSafe(s: Tables, supported: set<string>, m: map<GrantId, Grant>, all: set<FamilyId>,
                          status: FamilyStatus, at: int, reason: string)
    requires status in {FamilyRevoked, FamilyReset} && ReasonFits(status, Some(reason))
    requires m.Keys == s.grants.Keys && forall g | g in m :: GrantEvolves(s.grants[g], m[g])
    requires Inv(s, supported)
    ensures Inv(EndAll(s.(grants := m), OpenOnly(s, all), all, status, at, reason), supported)
    ensures Evolves(s, EndAll(s.(grants := m), OpenOnly(s, all), all, status, at, reason))
  {
    var mid := s.(grants := m);
    GrantsSafe(s, supported, m);
    EndAllSafe(mid, supported, OpenOnly(s, all), all, status, at, reason);
    EvolvesTransitive(s, mid, EndAll(mid, OpenOnly(s, all), all, status, at, reason));
  }

  lemma RevokeGrantSafe(s: Tables, supported: set<string>, id: GrantId, owner: OwnerId, at: int, reason: string)
    ensures Safe(s, RevokeGrant(s, id, owner, at, reason).0, supported)
  {
    EvolvesReflexive(s);
    if Inv(s, supported) && RevokeGrant(s, id, owner, at, reason).1.Ok? {
      var row := s.grants[id];
      var m := if row.status == GrantActive then s.grants[id := row.(status := GrantRevoked)] else s.grants;
      RevokeThenEndSafe(s, supported, m, FamiliesOfGrant(s, id), FamilyRevoked, at, reason);
    }
  }

  lemma EndOwnerSafe(s: Tables, supported: set<string>, owner: OwnerId, status: FamilyStatus, at: int, reason: string)
    requires status in {FamilyRevoked, FamilyReset} && ReasonFits(status, Some(reason))
    ensures Safe(s, EndOwner(s, owner, status, at, reason), supported)
  {
    if Inv(s, supported) {
      RevokeThenEndSafe(s, supported, RevokeGrantsOf(s.grants, owner), FamiliesOfOwner(s, owner), status, at, reason);
    }
  }

  lemma ResetSafe(s: Tables, supported: set<string>, owner: OwnerId, secret: string, at: int, expiresAt: int)
    ensures Safe(s, ResetOwnerAccess(s, owner, secret, at, expiresAt).0, supported)
  {
    EvolvesReflexive(s);
    if Inv(s, supported) && ResetOwnerAccess(s, owner, secret, at, expiresAt).1.Ok? {
      var ended := EndOwner(s, owner, FamilyReset, at, "owner_reset");
      EndOwnerSafe(s, supported, owner, FamilyReset, at, "owner_reset");
      forall c | c in ended.clients ensures ended.clients[c].owner in ended.owners { assert ClientInv(ended, c); }
      var disabled := ended.(clients := DisableClientsOf(s.clients, owner));
      ClientsSafe(ended, supported, disabled.clients);
      OwnerSafe(disabled, supported, owner, Owner(secret, expiresAt, None, true));
      EvolvesTransitive(s, ended, disabled);
      EvolvesTransitive(s, disabled, ResetOwnerAccess(s, owner, secret, at, expiresAt).0);
    }
  }

  /** A new family's row that fits its grant, whether or not that grant is still active. */
  ghost predicate FamilyFits(t: Tables, row: Family) {
    && row.grant in t.grants
    && var grant := t.grants[row.grant];
    && row.owner == grant.owner && row.client == grant.client && row.resource == grant.resource
    && row.createdAt < row.expiresAt <= grant.expiresAt
    && row.status == FamilyActive && row.revokedAt == None && row.reason == None && row.generation == 0
  }

  lemma NewTokens(s: Tables, supported: set<string>, id: FamilyId, row: Family, token: RefreshToken)
    requires Inv(s, supported) && FamilyFits(s, row) && WriteFamily(s, id, row, token).1.Ok?
    ensures var t := WriteFamily(s, id, row, token).0;
            GenerationsUnique(t) && forall d :: TokenInv(t, d)
  {
    var t := WriteFamily(s, id, row, token).0;
    forall d ensures TokenInv(t, d) && (d in s.tokens ==> s.tokens[d].family != id) { assert TokenInv(s, d); }
  }

  lemma WriteFamilySafe(s: Tables, supported: set<string>, id: FamilyId, row: Family, token: RefreshToken)
    requires FamilyFits(s, row)
    ensures Safe(s, WriteFamily(s, id, row, token).0, supported)
  {
    EvolvesReflexive(s);
    if Inv(s, supported) && WriteFamily(s, id, row, token).1.Ok? {
      var t := WriteFamily(s, id, row, token).0;
      NewTokens(s, supported, id, row, token);
      forall c ensures ClientInv(t, c) { assert ClientInv(s, c); }
      forall g ensures GrantInv(t, supported, g) { assert GrantInv(s, supported, g); }
      forall f ensures FamilyInv(t, f) { assert FamilyInv(s, f); }
      forall f ensures Filled(t, f) {
        if f == id {
          assert t.tokens[token].family == id && t.tokens[token].generation == 0;
          assert HasGeneration(t, id, 0);
        } else {
          FilledByTokens(s, t, f);
        }
      }
    }
  }

  lemma CheckedFamilyFits(
      s: Tables, grant: GrantId, owner: OwnerId, client: ClientId, resource: string, createdAt: int, expiresAt: int)
    requires CheckFamilyGrant(s, grant, owner, client, resource, createdAt, expiresAt).1.None?
    ensures FamilyFits(CheckFamilyGrant(s, grant, owner, client, resource, createdAt, expiresAt).0,
                       NewFamily(grant, owner, client, resource, createdAt, expiresAt))
  {
  }

  lemma CreateTokenFamilySafe(
      s: Tables, supported: set<string>, id: FamilyId, grant: GrantId, owner: OwnerId, client: ClientId,
      resource: string, token: RefreshToken, createdAt: int, expiresAt: int)
    ensures Safe(s, CreateTokenFamily(s, id, grant, owner, client, resource, token, createdAt, expiresAt).0, supported)
  {
    ExpireGrantSafe(s, supported, grant, createdAt);
    var (mid, refusal) := CheckFamilyGrant(s, grant, owner, client, resource, createdAt, expiresAt);
    if Inv(s, supported) && refusal.None? {
      var row := NewFamily(grant, owner, client, resource, createdAt, expiresAt);
      CheckedFamilyFits(s, grant, owner, client, resource, createdAt, expiresAt);
      WriteFamilySafe(mid, supported, id, row, token);
      EvolvesTransitive(s, mid, WriteFamily(mid, id, row, token).0);
    }
  }

  /** The two replay tests of rotation are one test on a live family. */
  lemma ReplayTestsAgree(s: Tables, supported: set<string>, d: RefreshToken)
    requires Inv(s, supported) && d in s.tokens
    requires s.tokens[d].family in s.families && s.families[s.tokens[d].family].status == FamilyActive
    ensures s.tokens[d].status == TokenActive <==> s.tokens[d].generation == s.families[s.tokens[d].family].generation
    ensures s.tokens[d].status == TokenConsumed <==> s.tokens[d].generation < s.families[s.tokens[d].family].generation
  {
    assert TokenInv(s, d);
  }

  /** The generation a rotation inserts is free: UNIQUE(family_id, generation) never fires. */
  lemma NextGenerationFree(s: Tables, supported: set<string>, f: FamilyId)
    requires Inv(s, supported) && f in s.families
    ensures !GenerationTaken(s.tokens, f, s.families[f].generation + 1)
  {
    forall d | d in s.tokens && s.tokens[d].family == f ensures s.tokens[d].generation <= s.families[f].generation {
      assert TokenInv(s, d);
    }
  }

  ghost predicate CanRotate(s: Tables, supported: set<string>, token: RefreshToken, next: RefreshToken) {
    && Inv(s, supported) && Joined(s, token) && next !in s.tokens
    && s.tokens[token].status == TokenActive && s.families[s.tokens[token].family].status == FamilyActive
  }

  lemma RotatedToken(s: Tables, supported: set<string>, token: RefreshToken, next: RefreshToken, now: int,
                     d: RefreshToken)
    requires CanRotate(s, supported, token, next)
    ensures TokenInv(Rotated(s, token, next, now), d)
  {
    assert TokenInv(s, token) && TokenInv(s, d);
    if d in s.tokens && d != token && s.tokens[d].family == s.tokens[token].family {
      assert s.tokens[d].generation != s.tokens[token].generation;
    }
  }

  lemma RotatedFilled(s: Tables, supported: set<string>, token: RefreshToken, next: RefreshToken, now: int, f: FamilyId)
    requires CanRotate(s, supported, token, next)
    ensures Filled(Rotated(s, token, next, now), f)
  {
    var t := Rotated(s, token, next, now);
    if f in t.families {
      forall k: nat | k <= t.families[f].generation ensures HasGeneration(t, f, k) {
        if f == s.tokens[token].family && k == t.families[f].generation {
          assert t.tokens[next].family == f && t.tokens[next].generation == k;
        } else {
          assert Filled(s, f);
          assert HasGeneration(s, f, k);
          var d :| d in s.tokens && s.tokens[d].family == f && s.tokens[d].generation == k;
          assert t.tokens[d].family == f && t.tokens[d].generation == k;
        }
      }
    }
  }

  lemma RotatedSafe(s: Tables, supported: set<string>, token: RefreshToken, next: RefreshToken, now: int)
    requires CanRotate(s, supported, token, next)
    ensures Inv(Rotated(s, token, next, now), supported) && Evolves(s, Rotated(s, token, next, now))
  {
    var t := Rotated(s, token, next, now);
    NextGenerationFree(s, supported, s.tokens[token].family);
    assert GenerationsUnique(t);
    forall c ensures ClientInv(t, c) { assert ClientInv(s, c); }
    forall g ensures GrantInv(t, supported, g) { assert GrantInv(s, supported, g); }
    forall f ensures FamilyInv(t, f) { assert FamilyInv(s, f); }
    forall f ensures Filled(t, f) { RotatedFilled(s, supported, token, next, now, f); }
    forall d ensures TokenInv(t, d) { RotatedToken(s, supported, token, next, now, d); }
  }

  lemma InactiveSafe(s: Tables, supported: set<string>, token: RefreshToken, next: RefreshToken,
                     client: ClientId, resource: string, now: int)
    requires Rotate(s, token, next, client, resource, now).1 == Err(RefreshInactive)
    ensures Safe(s, Rotate(s, token, next, client, resource, now).0, supported)
  {
    EvolvesReflexive(s);
    ExpireFamilySafe(s, supported, s.tokens[token].family, now);
  }

  lemma ReuseSafe(s: Tables, supported: set<string>, token: RefreshToken, next: RefreshToken,
                  client: ClientId, resource: string, now: int)
    requires Rotate(s, token, next, client, resource, now).1 == Err(RefreshReuseDetected)
    ensures Safe(s, Rotate(s, token, next, client, resource, now).0, supported)
  {
    if Inv(s, supported) {
      var f := s.tokens[token].family;
      EndAllSafe(s, supported, {f}, {f}, FamilyCompromised, now, "refresh_reuse");
    }
  }

  lemma RotateSafe(s: Tables, supported: set<string>, token: RefreshToken, next: RefreshToken,
                   client: ClientId, resource: string, now: int)
    ensures Safe(s, Rotate(s, token, next, client, resource, now).0, supported)
  {
    var (t, r) := Rotate(s, token, next, client, resource, now);
    if r == Err(RefreshInactive) {
      InactiveSafe(s, supported, token, next, client, resource, now);
    } else if r == Err(RefreshReuseDetected) {
      ReuseSafe(s, supported, token, next, client, resource, now);
    } else if r.Err? {
      EvolvesReflexive(s);
    } else if Inv(s, supported) {
      RotatedSafe(s, supported, token, next, now);
    }
  }
}
