/** What each call of packages/auth/src/auth-store.js answers and leaves behind, column by
    column, when nothing else commits during it. */
module AuthExact {
  import opened AuthInvariant
  import opened AuthTables
  import opened Results

  // ---------- the owner ----------

  /** A bootstrap is created exactly on an installation without an owner, with a secret of 32
      characters and an expiry in the future; it is then pending. */
  lemma BootstrapsExactly(t: Tables, owner: OwnerId, secret: string, createdAt: int, expiresAt: int)
    ensures var (after, r) := CreateOwnerBootstrap(t, owner, secret, createdAt, expiresAt);
            && (r == Err(InvalidBootstrap) <==> |secret| < 32 || expiresAt <= createdAt)
            && (r == Err(OwnerAlreadyExists) <==> |secret| >= 32 && createdAt < expiresAt && t.owners != map[])
            && (r.Ok? <==> |secret| >= 32 && createdAt < expiresAt && t.owners == map[])
            && (r.Err? ==> after == t)
            && (r.Ok? ==>
                  && after == t.(owners := after.owners) && after.owners.Keys == {owner}
                  && var row := after.owners[owner];
                  && r.value == row && row.secret == secret && row.bootstrapExpiresAt == expiresAt
                  && row.bootstrapConsumedAt == None && row.enabled)
  {
  }

  predicate Unconsumed(t: Tables, owner: OwnerId) {
    owner in t.owners && t.owners[owner].enabled && t.owners[owner].bootstrapConsumedAt == None
  }

  /** A bootstrap is consumed exactly while it is pending and unexpired, with its own secret;
      nothing else about it changes, and it is never pending again. */
  lemma ConsumesExactly(t: Tables, owner: OwnerId, secret: string, now: int)
    ensures var (after, r) := ConsumeOwnerBootstrap(t, owner, secret, now);
            && (r == Err(BootstrapUnavailable) <==> !Unconsumed(t, owner))
            && (r == Err(BootstrapExpired) <==> Unconsumed(t, owner) && t.owners[owner].bootstrapExpiresAt <= now)
            && (r == Err(BootstrapDenied) <==>
                  Unconsumed(t, owner) && now < t.owners[owner].bootstrapExpiresAt && secret != t.owners[owner].secret)
            && (r.Ok? <==>
                  Unconsumed(t, owner) && now < t.owners[owner].bootstrapExpiresAt && secret == t.owners[owner].secret)
            && (r.Err? ==> after == t)
            && (r.Ok? ==>
                  && after == t.(owners := after.owners) && after.owners == t.owners[owner := r.value]
                  && r.value.bootstrapConsumedAt == Some(now) && !Unconsumed(after, owner)
                  && r.value.secret == secret && r.value.enabled
                  && r.value.bootstrapExpiresAt == t.owners[owner].bootstrapExpiresAt)
  {
  }

  // ---------- clients ----------

  /** The client is stored for this owner and redirect, and no other. */
  predicate StoredAs(t: Tables, client: ClientId, owner: OwnerId, redirect: string) {
    client in t.clients && t.clients[client].owner == owner && t.clients[client].redirect == redirect
  }

  /** The writing of a client goes through exactly for a new one and for one already stored
      with this very owner and redirect; it is then enabled. Any other changes nothing. */
  lemma WritesClientExactly(t: Tables, client: ClientId, owner: OwnerId, redirect: string, at: int)
    ensures var (after, r) := WriteClient(t, client, owner, redirect, at);
            && (r.Ok? <==> client !in t.clients || StoredAs(t, client, owner, redirect))
            && (r.Err? ==> r == Err(ClientConflict) && after == t)
            && (r.Ok? ==>
                  && after == t.(clients := after.clients) && after.clients == t.clients[client := r.value]
                  && StoredAs(after, client, owner, redirect) && r.value.enabled
                  && r.value.createdAt == if client in t.clients && t.clients[client].enabled
                                          then t.clients[client].createdAt else at)
  {
  }

  /** A registration is accepted exactly from a paired owner, for a new client or for one
      already stored with this very owner and redirect. */
  lemma RegistersExactly(t: Tables, client: ClientId, owner: OwnerId, redirect: string, at: int)
    ensures var (after, r) := RegisterClient(t, client, owner, redirect, at);
            var paired := owner in t.owners && t.owners[owner].enabled && t.owners[owner].bootstrapConsumedAt.Some?;
            && (r == Err(OwnerNotBootstrapped) <==> !paired)
            && (r == Err(ClientConflict) <==>
                  paired && client in t.clients && !StoredAs(t, client, owner, redirect))
            && (r.Ok? <==> paired && (client !in t.clients || StoredAs(t, client, owner, redirect)))
            && (r.Err? ==> after == t)
            && (r.Ok? ==>
                  && after == t.(clients := after.clients) && after.clients == t.clients[client := r.value]
                  && StoredAs(after, client, owner, redirect) && r.value.enabled)
  {
  }

  // ---------- grants ----------

  predicate EnabledFor(t: Tables, client: ClientId, owner: OwnerId) {
    client in t.clients && t.clients[client].enabled && t.clients[client].owner == owner
  }

  predicate ScopesFit(scopes: set<string>, supported: set<string>) { scopes != {} && scopes <= supported }

  /** A grant is stored exactly for an enabled client of its own owner, with supported scopes,
      a positive lifetime and an unused id; it is then active and otherwise as asked for. */
  lemma CreatesGrantExactly(t: Tables, supported: set<string>, id: GrantId, grant: Grant)
    ensures var (after, r) := CreateGrant(t, supported, id, grant);
            var client, scopes := EnabledFor(t, grant.client, grant.owner), ScopesFit(grant.scopes, supported);
            && (r == Err(InvalidClient) <==> !client)
            && (r == Err(InvalidScope) <==> client && !scopes)
            && (r == Err(InvalidGrant) <==> client && scopes && grant.expiresAt <= grant.grantedAt)
            && (r.Ok? <==> client && scopes && grant.grantedAt < grant.expiresAt && id !in t.grants)
            && (r.Err? ==> after == t)
            && (r.Ok? ==>
                  && after == t.(grants := t.grants[id := r.value])
                  && r.value.status == GrantActive && r.value.(status := grant.status) == grant)
  {
  }

  predicate DueGrant(t: Tables, id: GrantId, now: int) {
    id in t.grants && t.grants[id].status == GrantActive && t.grants[id].expiresAt <= now
  }

  /** Reading a grant returns its row; an active one that is due is expired first. */
  lemma ReadsGrantExactly(t: Tables, id: GrantId, now: int)
    ensures var (after, r) := GetGrant(t, id, now);
            && (r.None? <==> id !in t.grants)
            && after == t.(grants := after.grants) && after.grants.Keys == t.grants.Keys
            && (forall g | g in t.grants && (g != id || !DueGrant(t, id, now)) :: after.grants[g] == t.grants[g])
            && (r.Some? ==> after.grants[id] == r.value)
            && (DueGrant(t, id, now) ==>
                  r.value.status == GrantExpired && r.value.(status := GrantActive) == t.grants[id])
  {
  }

  // ---------- families and tokens ----------

  predicate FamilyEnded(a: Family, b: Family, status: FamilyStatus, at: int, reason: string) {
    && b.status == status && b.revokedAt == Some(at) && b.reason == Some(reason)
    && b.(status := a.status, revokedAt := a.revokedAt, reason := a.reason) == a
  }

  /** These families end in this way, and no other row of theirs changes. */
  ghost predicate FamiliesEnd(s: Tables, t: Tables, hit: set<FamilyId>, status: FamilyStatus, at: int, reason: string) {
    && t.families.Keys == s.families.Keys
    && forall f | f in s.families ::
         if f in hit then FamilyEnded(s.families[f], t.families[f], status, at, reason)
         else t.families[f] == s.families[f]
  }

  /** The active tokens of these families are revoked, and no other token changes. */
  ghost predicate TokensEnd(s: Tables, t: Tables, of: set<FamilyId>) {
    && t.tokens.Keys == s.tokens.Keys
    && forall d | d in s.tokens ::
         if s.tokens[d].family in of && s.tokens[d].status == TokenActive
         then t.tokens[d].status == TokenRevoked && t.tokens[d].(status := TokenActive) == s.tokens[d]
         else t.tokens[d] == s.tokens[d]
  }

  predicate DueFamily(t: Tables, id: FamilyId, now: int) {
    id in t.families && t.families[id].status == FamilyActive && t.families[id].expiresAt <= now
  }

  /** A due family expires with its active tokens, and nothing else changes. */
  ghost predicate FamilyExpires(s: Tables, t: Tables, id: FamilyId, now: int) {
    && t == s.(families := t.families, tokens := t.tokens)
    && FamiliesEnd(s, t, {id}, FamilyExpired, now, "expired") && TokensEnd(s, t, {id})
  }

  /** Reading a family returns its row; an active one that is due expires first. */
  lemma ReadsFamilyExactly(t: Tables, id: FamilyId, now: int)
    ensures var (after, r) := GetTokenFamily(t, id, now);
            && (r.None? <==> id !in t.families)
            && (DueFamily(t, id, now) ==> FamilyExpires(t, after, id, now))
            && (!DueFamily(t, id, now) ==> after == t)
            && (r.Some? ==> after.families[id] == r.value)
  {
  }

  /** The grant as it is at this time: bound like this and active. */
  predicate GrantHolds(t: Tables, grant: GrantId, owner: OwnerId, client: ClientId, resource: string, at: int) {
    && grant in t.grants && t.grants[grant].status == GrantActive && at < t.grants[grant].expiresAt
    && t.grants[grant].owner == owner && t.grants[grant].client == client && t.grants[grant].resource == resource
  }

  /** A family and its first token are stored exactly for a grant that holds, that they do not
      outlive, and under unused identifiers; otherwise only the grant read may have expired. */
  lemma CreatesFamilyExactly(
      t: Tables, supported: set<string>, id: FamilyId, grant: GrantId, owner: OwnerId, client: ClientId,
      resource: string, token: RefreshToken, createdAt: int, expiresAt: int)
    requires Inv(t, supported)
    ensures var (after, r) := CreateTokenFamily(t, id, grant, owner, client, resource, token, createdAt, expiresAt);
            var holds := GrantHolds(t, grant, owner, client, resource, createdAt);
            var nested := grant in t.grants && createdAt < expiresAt <= t.grants[grant].expiresAt;
            && (r == Err(InvalidGrant) <==> !holds)
            && (r == Err(InvalidTokenFamily) <==> holds && !nested)
            && (r.Ok? <==> holds && nested && id !in t.families && token !in t.tokens)
            && (r.Err? ==> after == GetGrant(t, grant, createdAt).0)
            && (r.Ok? ==>
                  && token in after.tokens && after.tokens == t.tokens[token := after.tokens[token]]
                  && after == t.(families := t.families[id := r.value], tokens := after.tokens)
                  && r.value == Family(grant, owner, client, resource, createdAt, expiresAt, FamilyActive,
                                       None, None, 0)
                  && after.tokens[token] == Token(id, 0, createdAt, expiresAt, None, TokenActive))
  {
    forall d | d in t.tokens && t.tokens[d].family == id ensures id in t.families {
      assert TokenInv(t, d);
    }
  }

  // ---------- rotation ----------

  /** The token is stored, and presented by its own client for its own resource. */
  predicate BoundTo(t: Tables, token: RefreshToken, client: ClientId, resource: string) {
    && token in t.tokens && t.tokens[token].family in t.families
    && t.families[t.tokens[token].family].client == client && t.families[t.tokens[token].family].resource == resource
  }

  /** Its family and the grant of that are active, and the family has not expired. */
  predicate FamilyHolds(t: Tables, f: FamilyId, now: int) {
    && f in t.families && t.families[f].status == FamilyActive && now < t.families[f].expiresAt
    && t.families[f].grant in t.grants && t.grants[t.families[f].grant].status == GrantActive
  }

  /** A token is refused as invalid when it is not stored, not bound like this, or its own
      successor; as inactive when its family does not hold; as reused when it holds but the
      token was rotated before. A due family expires, a reused one is compromised with its
      active tokens revoked, and nothing else changes. */
  lemma RefusesRotationExactly(t: Tables, supported: set<string>, token: RefreshToken, next: RefreshToken,
                               client: ClientId, resource: string, now: int)
    requires Inv(t, supported)
    ensures var (after, r) := Rotate(t, token, next, client, resource, now);
            var bound := token != next && BoundTo(t, token, client, resource);
            && (r == Err(InvalidRefreshToken) <==> !bound)
            && (bound ==>
                  && var f := t.tokens[token].family;
                  && (r == Err(RefreshInactive) <==> !FamilyHolds(t, f, now))
                  && (r == Err(RefreshReuseDetected) <==>
                        FamilyHolds(t, f, now) && t.tokens[token].status == TokenConsumed)
                  && (r == Err(StorageFailure) <==>
                        FamilyHolds(t, f, now) && t.tokens[token].status != TokenConsumed && next in t.tokens)
                  && (r == Err(RefreshInactive) && DueFamily(t, f, now) ==> FamilyExpires(t, after, f, now))
                  && (r == Err(RefreshReuseDetected) ==>
                        && after == t.(families := after.families, tokens := after.tokens)
                        && FamiliesEnd(t, after, {f}, FamilyCompromised, now, "refresh_reuse")
                        && TokensEnd(t, after, {f}))
                  && (r == Err(RefreshInactive) && !DueFamily(t, f, now) ==> after == t))
            && (r == Err(InvalidRefreshToken) || r == Err(StorageFailure) ==> after == t)
  {
    hide Inv;
    if token in t.tokens {
      TokenFacts(t, supported, token);
      var f := t.tokens[token].family;
      NextGenerationFree(t, supported, f);
      EndsOne(t, f, FamilyCompromised, now, "refresh_reuse");
      EndsOne(t, f, FamilyExpired, now, "expired");
    }
  }

  /** What a rotation writes: the token is consumed now, its successor is the next generation
      and expires with the family, and the family counts it. */
  lemma RotatesRows(t: Tables, token: RefreshToken, next: RefreshToken, client: ClientId, resource: string, now: int)
    requires Rotate(t, token, next, client, resource, now).1.Ok?
    ensures var after := Rotate(t, token, next, client, resource, now).0;
            && token in t.tokens && t.tokens[token].family in t.families && next != token
            && var f := t.tokens[token].family; var family := t.families[f];
            && after == t.(families := after.families, tokens := after.tokens)
            && after.families == t.families[f := family.(generation := family.generation + 1)]
            && token in after.tokens && next in after.tokens
            && after.tokens == t.tokens[token := after.tokens[token]][next := after.tokens[next]]
            && after.tokens[token] == t.tokens[token].(status := TokenConsumed, consumedAt := Some(now))
            && after.tokens[next] == Token(f, family.generation + 1, now, family.expiresAt, None, TokenActive)
  {
  }

  lemma TokenFacts(t: Tables, supported: set<string>, token: RefreshToken)
    requires Inv(t, supported) && token in t.tokens
    ensures TokenInv(t, token) && FamilyInv(t, t.tokens[token].family)
  {
  }

  lemma EndsOne(t: Tables, f: FamilyId, status: FamilyStatus, at: int, reason: string)
    ensures var after := EndAll(t, {f}, {f}, status, at, reason);
            FamiliesEnd(t, after, {f}, status, at, reason) && TokensEnd(t, after, {f})
  {
  }

  // ---------- revocation ----------

  /** A family is revoked exactly for its own owner: if it was active it ends, and its active
      tokens with it. */
  lemma RevokesFamilyExactly(t: Tables, id: FamilyId, owner: OwnerId, at: int, reason: string)
    ensures var (after, ok) := RevokeTokenFamily(t, id, owner, at, reason);
            var hit := set f | f in {id} && f in t.families && t.families[f].status == FamilyActive;
            && (ok <==> id in t.families && t.families[id].owner == owner)
            && (!ok ==> after == t)
            && (ok ==>
                  && after == t.(families := after.families, tokens := after.tokens)
                  && FamiliesEnd(t, after, hit, FamilyRevoked, at, reason) && TokensEnd(t, after, {id}))
  {
  }

  /** A stored refresh token, consumed or not, revokes its family: exactly when no client is
      named, or its own is. */
  lemma RevokesTokenExactly(t: Tables, supported: set<string>, token: RefreshToken, client: Option<ClientId>, at: int,
                            reason: string)
    requires Inv(t, supported)
    ensures var (after, ok) := RevokeRefreshToken(t, token, client, at, reason);
            && (ok <==>
                  && token in t.tokens && t.tokens[token].family in t.families
                  && (client == None || client == Some(t.families[t.tokens[token].family].client)))
            && (!ok ==> after == t)
            && (ok ==>
                  && var id := t.tokens[token].family;
                  && var hit := set f | f in {id} && f in t.families && t.families[f].status == FamilyActive;
                  && after == t.(families := after.families, tokens := after.tokens)
                  && FamiliesEnd(t, after, hit, FamilyRevoked, at, reason) && TokensEnd(t, after, {id}))
  {
    if token in t.tokens && t.tokens[token].family in t.families {
      var id := t.tokens[token].family;
      RevokesFamilyExactly(t, id, t.families[id].owner, at, reason);
    }
  }

  /** These active grants are revoked, and no other grant changes. */
  ghost predicate GrantsEnd(s: Tables, t: Tables, hit: set<GrantId>) {
    && t.grants.Keys == s.grants.Keys
    && forall g | g in s.grants ::
         if g in hit && s.grants[g].status == GrantActive
         then t.grants[g].status == GrantRevoked && t.grants[g].(status := GrantActive) == s.grants[g]
         else t.grants[g] == s.grants[g]
  }

  /** A grant is revoked exactly for its own owner, with every family of it that is active or
      compromised and every active token of it. */
  lemma RevokesGrantExactly(t: Tables, id: GrantId, owner: OwnerId, at: int, reason: string)
    ensures var (after, r) := RevokeGrant(t, id, owner, at, reason);
            var of := set f | f in t.families && t.families[f].grant == id;
            var hit := set f | f in of && t.families[f].status in {FamilyActive, FamilyCompromised};
            && (r.Ok? <==> id in t.grants && t.grants[id].owner == owner)
            && (r.Err? ==> r == Err(InvalidGrant) && after == t)
            && (r.Ok? ==>
                  && id in after.grants && r.value == after.grants[id]
                  && after.owners == t.owners && after.clients == t.clients && GrantsEnd(t, after, {id})
                  && FamiliesEnd(t, after, hit, FamilyRevoked, at, reason) && TokensEnd(t, after, of))
  {
  }

  /** What ends with an owner's access: all active grants, all families that are active or
      compromised, and all active tokens of that owner, and nothing of any other. */
  ghost predicate AccessEnds(s: Tables, t: Tables, owner: OwnerId, status: FamilyStatus, at: int, reason: string) {
    var of := set f | f in s.families && s.families[f].owner == owner;
    var hit := set f | f in of && s.families[f].status in {FamilyActive, FamilyCompromised};
    && GrantsEnd(s, t, set g | g in s.grants && s.grants[g].owner == owner)
    && FamiliesEnd(s, t, hit, status, at, reason) && TokensEnd(s, t, of)
  }

  lemma EndsOwner(t: Tables, owner: OwnerId, status: FamilyStatus, at: int, reason: string)
    ensures AccessEnds(t, EndOwner(t, owner, status, at, reason), owner, status, at, reason)
  {
  }

  /** The owner's access is revoked exactly for a stored owner; the owner and its clients stay
      as they are. */
  lemma RevokesOwnerExactly(t: Tables, owner: OwnerId, at: int, reason: string)
    ensures var (after, r) := RevokeOwnerAccess(t, owner, at, reason);
            && (r.Ok? <==> owner in t.owners)
            && (r.Err? ==> r == Err(InvalidOwner) && after == t)
            && (r.Ok? ==>
                  && after.owners == t.owners && after.clients == t.clients
                  && AccessEnds(t, after, owner, FamilyRevoked, at, reason))
  {
    EndsOwner(t, owner, FamilyRevoked, at, reason);
  }

  /** A reset also disables the owner's clients, and leaves a pending bootstrap with the new
      secret and expiry; it is refused like a bootstrap, or when there is no such owner. */
  lemma ResetsExactly(t: Tables, owner: OwnerId, secret: string, at: int, expiresAt: int)
    ensures var (after, r) := ResetOwnerAccess(t, owner, secret, at, expiresAt);
            && (r == Err(InvalidBootstrap) <==> |secret| < 32 || expiresAt <= at)
            && (r == Err(InvalidOwner) <==> |secret| >= 32 && at < expiresAt && owner !in t.owners)
            && (r.Ok? <==> |secret| >= 32 && at < expiresAt && owner in t.owners)
            && (r.Err? ==> after == t)
            && (r.Ok? ==>
                  && after.owners == t.owners[owner := r.value]
                  && r.value.secret == secret && r.value.bootstrapExpiresAt == expiresAt
                  && r.value.bootstrapConsumedAt == None && r.value.enabled
                  && after.clients.Keys == t.clients.Keys
                  && (forall c | c in t.clients ::
                        after.clients[c] == if t.clients[c].owner == owner
                                            then t.clients[c].(enabled := false) else t.clients[c])
                  && AccessEnds(t, after, owner, FamilyReset, at, "owner_reset"))
  {
    EndsOwner(t, owner, FamilyReset, at, "owner_reset");
  }
}
