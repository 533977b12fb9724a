/** The store object of packages/auth/src/auth-store.js: each method runs the source's
    statements on its tables, undisturbed by other processes. Where the statements are
    several commits, each commit is a method or a step of its own, and OAuthRuns lets
    another process commit between them. */
module AuthStore {
  import opened Results
  import opened AuthTables
  import opened AuthInvariant

  class Store {
    const supportedScopes: set<string>
    var owners: map<OwnerId, Owner>
    var clients: map<ClientId, Client>
    var grants: map<GrantId, Grant>
    var families: map<FamilyId, Family>
    var tokens: map<RefreshToken, Token>

    ghost function State(): Tables reads this { Tables(owners, clients, grants, families, tokens) }

    ghost predicate Valid() reads this { Inv(State(), supportedScopes) }

    constructor (supported: set<string>)
      ensures Valid() && supportedScopes == supported
      ensures State() == Tables(map[], map[], map[], map[], map[])
    {
      supportedScopes := supported;
      owners, clients, grants, families, tokens := map[], map[], map[], map[], map[];
    }

    method CreateOwnerBootstrap(owner: OwnerId, secret: string, createdAt: int, expiresAt: int)
      returns (r: Result<Owner, AuthError>)
      requires Valid()
      modifies this
      ensures Valid()
      ensures (State(), r) == AuthTables.CreateOwnerBootstrap(old(State()), owner, secret, createdAt, expiresAt)
    {
      BootstrapSafe(State(), supportedScopes, owner, secret, createdAt, expiresAt);
      if |secret| < 32 || expiresAt <= createdAt {
        return Err(InvalidBootstrap);
      }
      if owners != map[] {
        return Err(OwnerAlreadyExists);
      }
      owners := owners[owner := Owner(secret, expiresAt, None, true)];
      r := Ok(owners[owner]);
    }

    /** The singleton row is the one examined; without rows there is nothing to consume. */
    method ConsumeOwnerBootstrap(secret: string, now: int) returns (r: Result<Owner, AuthError>)
      requires Valid()
      modifies this
      ensures Valid()
      ensures old(owners) == map[] ==> r == Err(BootstrapUnavailable) && State() == old(State())
      ensures forall owner | owner in old(owners) ::
                (State(), r) == AuthTables.ConsumeOwnerBootstrap(old(State()), owner, secret, now)
    {
      if owner :| owner in owners {
        BootstrapSafe(State(), supportedScopes, owner, secret, now, now);
        var row := owners[owner];
        if !row.enabled || row.bootstrapConsumedAt.Some? {
          return Err(BootstrapUnavailable);
        }
        if row.bootstrapExpiresAt <= now {
          return Err(BootstrapExpired);
        }
        if secret != row.secret {
          return Err(BootstrapDenied);
        }
        owners := owners[owner := row.(bootstrapConsumedAt := Some(now))];
        return Ok(owners[owner]);
      }
      return Err(BootstrapUnavailable);
    }

    /** The insertion, and the update when it conflicts; the owner is not read again. */
    method InsertClient(client: ClientId, owner: OwnerId, redirect: string, createdAt: int)
      returns (r: Result<Client, AuthError>)
      requires Valid() && owner in owners
      modifies this
      ensures Valid()
      ensures (State(), r) == WriteClient(old(State()), client, owner, redirect, createdAt)
    {
      WriteClientSafe(State(), supportedScopes, client, owner, redirect, createdAt);
      if client in clients {
        var existing := clients[client];
        if existing.owner == owner && existing.redirect == redirect {
          if !existing.enabled {
            clients := clients[client := existing.(enabled := true, createdAt := createdAt)];
          }
          return Ok(clients[client]);
        }
        return Err(ClientConflict);
      }
      clients := clients[client := Client(owner, redirect, createdAt, true)];
      return Ok(clients[client]);
    }

    method RegisterClient(client: ClientId, owner: OwnerId, redirect: string, createdAt: int)
      returns (r: Result<Client, AuthError>)
      requires Valid()
      modifies this
      ensures Valid()
      ensures (State(), r) == AuthTables.RegisterClient(old(State()), client, owner, redirect, createdAt)
    {
      if owner !in owners || !owners[owner].enabled || owners[owner].bootstrapConsumedAt.None? {
        return Err(OwnerNotBootstrapped);
      }
      r := InsertClient(client, owner, redirect, createdAt);
    }

    method GetGrant(id: GrantId, now: int) returns (r: Option<Grant>)
      requires Valid()
      modifies this
      ensures Valid()
      ensures (State(), r) == AuthTables.GetGrant(old(State()), id, now)
    {
      ExpireGrantSafe(State(), supportedScopes, id, now);
      if id !in grants {
        return None;
      }
      var row := grants[id];
      if row.status == GrantActive && row.expiresAt <= now {
        grants := grants[id := row.(status := GrantExpired)];
      }
      return Some(grants[id]);
    }

    /** The insertion; the client is not read again. */
    method InsertGrant(id: GrantId, grant: Grant) returns (r: Result<Grant, AuthError>)
      requires Valid() && GrantFits(State(), supportedScopes, grant)
      modifies this
      ensures Valid()
      ensures (State(), r) == WriteGrant(old(State()), id, grant)
    {
      WriteGrantSafe(State(), supportedScopes, id, grant);
      if id in grants {
        return Err(StorageFailure);
      }
      grants := grants[id := grant.(status := GrantActive)];
      var stored := GetGrant(id, grant.grantedAt);
      r := Ok(stored.value);
    }

    method CreateGrant(id: GrantId, grant: Grant) returns (r: Result<Grant, AuthError>)
      requires Valid()
      modifies this
      ensures Valid()
      ensures (State(), r) == AuthTables.CreateGrant(old(State()), supportedScopes, id, grant)
    {
      if grant.client !in clients || !clients[grant.client].enabled || clients[grant.client].owner != grant.owner {
        return Err(InvalidClient);
      }
      if grant.scopes == {} || !(grant.scopes <= supportedScopes) {
        return Err(InvalidScope);
      }
      if grant.expiresAt <= grant.grantedAt {
        return Err(InvalidGrant);
      }
      CheckedGrantFits(State(), supportedScopes, grant);
      r := InsertGrant(id, grant);
    }

    method GetTokenFamily(id: FamilyId, now: int) returns (r: Option<Family>)
      requires Valid()
      modifies this
      ensures Valid()
      ensures (State(), r) == AuthTables.GetTokenFamily(old(State()), id, now)
    {
      GetTokenFamilySafe(State(), supportedScopes, id, now);
      if id !in families {
        return None;
      }
      if families[id].status == FamilyActive && families[id].expiresAt <= now {
        families := EndFamilies(families, {id}, FamilyExpired, now, "expired");
        tokens := RevokeTokens(tokens, {id});
      }
      return Some(families[id]);
    }

    /** INSERT with its primary key and its UNIQUE(family_id, generation). */
    method InsertToken(token: RefreshToken, row: Token) returns (ok: bool)
      modifies this`tokens
      ensures ok <==> token !in old(tokens) && !GenerationTaken(old(tokens), row.family, row.generation)
      ensures tokens == if ok then old(tokens)[token := row] else old(tokens)
    {
      if token in tokens {
        return false;
      }
      if d :| d in tokens && tokens[d].family == row.family && tokens[d].generation == row.generation {
        return false;
      }
      tokens := tokens[token := row];
      return true;
    }

    /** The inserting transaction; the grant is not read again. */
    method InsertFamily(id: FamilyId, row: Family, token: RefreshToken) returns (r: Result<Family, AuthError>)
      requires Valid() && FamilyFits(State(), row)
      modifies this
      ensures Valid()
      ensures (State(), r) == WriteFamily(old(State()), id, row, token)
    {
      hide Inv, Evolves;
      WriteFamilySafe(State(), supportedScopes, id, row, token);
      if id in families {
        return Err(StorageFailure);
      }
      var before := families;
      families := families[id := row];
      var inserted := InsertToken(token, Token(id, 0, row.createdAt, row.expiresAt, None, TokenActive));
      if !inserted {
        families := before;  // ROLLBACK
        return Err(StorageFailure);
      }
      var stored := GetTokenFamily(id, row.createdAt);
      r := Ok(stored.value);
    }

    method CreateTokenFamily(
      id: FamilyId, grant: GrantId, owner: OwnerId, client: ClientId, resource: string,
      token: RefreshToken, createdAt: int, expiresAt: int) returns (r: Result<Family, AuthError>)
      requires Valid()
      modifies this
      ensures Valid()
      ensures (State(), r) ==
              AuthTables.CreateTokenFamily(old(State()), id, grant, owner, client, resource, token, createdAt,
                                           expiresAt)
    {
      var g := GetGrant(grant, createdAt);
      if g.None? || g.value.status != GrantActive
         || g.value.owner != owner || g.value.client != client || g.value.resource != resource {
        return Err(InvalidGrant);
      }
      if expiresAt <= createdAt || expiresAt > g.value.expiresAt {
        return Err(InvalidTokenFamily);
      }
      r := InsertFamily(id, NewFamily(grant, owner, client, resource, createdAt, expiresAt), token);
    }

    /** Consume, insert the successor, advance the family; all or nothing. */
    method ReplaceToken(token: RefreshToken, next: RefreshToken, now: int) returns (ok: bool)
      requires Joined(State(), token) && token != next
      modifies this`tokens, this`families
      ensures var row := old(tokens)[token];
              ok <==> next !in old(tokens)
                      && !GenerationTaken(old(tokens), row.family, old(families)[row.family].generation + 1)
      ensures State() == if ok then Rotated(old(State()), token, next, now) else old(State())
    {
      var row := tokens[token];
      var family := families[row.family];
      var before := tokens;
      tokens := tokens[token := row.(status := TokenConsumed, consumedAt := Some(now))];
      assert GenerationTaken(tokens, row.family, family.generation + 1)
          == GenerationTaken(before, row.family, family.generation + 1) by {
        forall d | d in before
          ensures d in tokens && tokens[d].family == before[d].family && tokens[d].generation == before[d].generation {}
      }
      var inserted := InsertToken(next,
                                  Token(row.family, family.generation + 1, now, family.expiresAt, None, TokenActive));
      if !inserted {
        tokens := before;  // ROLLBACK
        return false;
      }
      families := families[row.family := family.(generation := family.generation + 1)];
      return true;
    }

    method RotateRefreshToken(token: RefreshToken, next: RefreshToken, client: ClientId, resource: string, now: int)
      returns (r: Result<(FamilyId, Family, Grant), AuthError>)
      requires Valid()
      modifies this
      ensures Valid()
      ensures (State(), r) == Rotate(old(State()), token, next, client, resource, now)
    {
      hide Inv, Evolves;
      RotateSafe(State(), supportedScopes, token, next, client, resource, now);
      if token == next {
        return Err(InvalidRefreshToken);
      }
      if token !in tokens || tokens[token].family !in families || families[tokens[token].family].grant !in grants {
        return Err(InvalidRefreshToken);
      }
      var row := tokens[token];
      var family := families[row.family];
      var grant := grants[family.grant];
      if family.client != client || family.resource != resource {
        return Err(InvalidRefreshToken);
      }
      if family.status != FamilyActive || grant.status != GrantActive
         || family.expiresAt <= now || grant.expiresAt <= now || row.expiresAt <= now {
        if family.status == FamilyActive && family.expiresAt <= now {
          families := EndFamilies(families, {row.family}, FamilyExpired, now, "expired");
          tokens := RevokeTokens(tokens, {row.family});
        }
        return Err(RefreshInactive);
      }
      if row.status != TokenActive || row.generation != family.generation {
        families := EndFamilies(families, {row.family}, FamilyCompromised, now, "refresh_reuse");
        tokens := RevokeTokens(tokens, {row.family});
        return Err(RefreshReuseDetected);
      }
      var ok := ReplaceToken(token, next, now);
      if !ok {
        return Err(StorageFailure);
      }
      var family' := GetTokenFamily(row.family, now);
      var grant' := GetGrant(family.grant, now);
      r := Ok((row.family, family'.value, grant'.value));
    }

    method RevokeTokenFamily(id: FamilyId, owner: OwnerId, at: int, reason: string) returns (ok: bool)
      requires Valid()
      modifies this
      ensures Valid()
      ensures (State(), ok) == AuthTables.RevokeTokenFamily(old(State()), id, owner, at, reason)
    {
      RevokeTokenFamilySafe(State(), supportedScopes, id, owner, at, reason);
      if id !in families || families[id].owner != owner {
        return false;
      }
      var hit := if families[id].status == FamilyActive then {id} else {};
      families := EndFamilies(families, hit, FamilyRevoked, at, reason);
      tokens := RevokeTokens(tokens, {id});
      return true;
    }

    method RevokeRefreshToken(token: RefreshToken, client: Option<ClientId>, at: int, reason: string) returns (ok: bool)
      requires Valid()
      modifies this
      ensures Valid()
      ensures (State(), ok) == AuthTables.RevokeRefreshToken(old(State()), token, client, at, reason)
    {
      if token !in tokens || tokens[token].family !in families {
        return false;
      }
      var id := tokens[token].family;
      if client.Some? && families[id].client != client.value {
        return false;
      }
      ok := RevokeTokenFamily(id, families[id].owner, at, reason);
    }

    method RevokeGrant(id: GrantId, owner: OwnerId, at: int, reason: string) returns (r: Result<Grant, AuthError>)
      requires Valid()
      modifies this
      ensures Valid()
      ensures (State(), r) == AuthTables.RevokeGrant(old(State()), id, owner, at, reason)
    {
      hide Inv, Evolves;
      RevokeGrantSafe(State(), supportedScopes, id, owner, at, reason);
      if id !in grants || grants[id].owner != owner {
        return Err(InvalidGrant);
      }
      if grants[id].status == GrantActive {
        grants := grants[id := grants[id].(status := GrantRevoked)];
      }
      var all := set f | f in families && families[f].grant == id;
      var open := set f | f in all && Open(families[f].status);
      assert all == FamiliesOfGrant(old(State()), id) && open == OpenOnly(old(State()), all);
      families := EndFamilies(families, open, FamilyRevoked, at, reason);
      tokens := RevokeTokens(tokens, all);
      return Ok(grants[id]);
    }

    method EndOwnerAccess(owner: OwnerId, status: FamilyStatus, at: int, reason: string)
      modifies this`grants, this`families, this`tokens
      ensures State() == EndOwner(old(State()), owner, status, at, reason)
    {
      grants := RevokeGrantsOf(grants, owner);
      var all := set f | f in families && families[f].owner == owner;
      var open := set f | f in all && Open(families[f].status);
      assert all == FamiliesOfOwner(old(State()), owner) && open == OpenOnly(old(State()), all);
      families := EndFamilies(families, open, status, at, reason);
      tokens := RevokeTokens(tokens, all);
    }

    method RevokeOwnerAccess(owner: OwnerId, at: int, reason: string) returns (r: Result<(), AuthError>)
      requires Valid()
      modifies this
      ensures Valid()
      ensures (State(), r) == AuthTables.RevokeOwnerAccess(old(State()), owner, at, reason)
    {
      EvolvesReflexive(State());
      EndOwnerSafe(State(), supportedScopes, owner, FamilyRevoked, at, reason);
      if owner !in owners {
        return Err(InvalidOwner);
      }
      EndOwnerAccess(owner, FamilyRevoked, at, reason);
      return Ok(());
    }

    method ResetOwnerAccess(owner: OwnerId, secret: string, at: int, expiresAt: int)
      returns (r: Result<Owner, AuthError>)
      requires Valid()
      modifies this
      ensures Valid()
      ensures (State(), r) == AuthTables.ResetOwnerAccess(old(State()), owner, secret, at, expiresAt)
    {
      ResetSafe(State(), supportedScopes, owner, secret, at, expiresAt);
      if |secret| < 32 || expiresAt <= at {
        return Err(InvalidBootstrap);
      }
      if owner !in owners {
        return Err(InvalidOwner);
      }
      EndOwnerAccess(owner, FamilyReset, at, "owner_reset");
      clients := DisableClientsOf(clients, owner);
      owners := owners[owner := Owner(secret, expiresAt, None, true)];
      return Ok(owners[owner]);
    }
  }
}
