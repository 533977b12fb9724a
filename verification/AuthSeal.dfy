/** The reset barrier and the closure under revocation: which commits to the auth store
    keep them, and exactly which writes break them. */
module AuthSeal {
  import opened Results
  import opened AuthTables
  import opened AuthInvariant

  ghost predicate Pending(t: Tables, owner: OwnerId) {
    owner in t.owners && t.owners[owner].bootstrapConsumedAt.None?
  }

  ghost predicate ClientSealed(t: Tables, c: ClientId) {
    c in t.clients && t.clients[c].enabled ==> !Pending(t, t.clients[c].owner)
  }

  ghost predicate GrantSealed(t: Tables, g: GrantId) {
    g in t.grants && t.grants[g].status == GrantActive ==> !Pending(t, t.grants[g].owner)
  }

  ghost predicate FamilySealed(t: Tables, f: FamilyId) {
    f in t.families ==>
      && (t.families[f].status == FamilyActive ==> !Pending(t, t.families[f].owner))
      && (t.families[f].grant in t.grants && t.grants[t.families[f].grant].status == GrantRevoked ==>
            !Open(t.families[f].status))
  }

  /** An owner whose bootstrap is not consumed has no active client, grant or family, and a
      revoked grant has no family that is active or compromised. */
  ghost predicate Sealed(t: Tables) {
    && (forall c :: ClientSealed(t, c)) && (forall g :: GrantSealed(t, g)) && (forall f :: FamilySealed(t, f))
  }

  ghost predicate Barred(t: Tables, owner: OwnerId) {
    && (forall c | c in t.clients && t.clients[c].owner == owner :: !t.clients[c].enabled)
    && (forall g | g in t.grants && t.grants[g].owner == owner :: t.grants[g].status != GrantActive)
    && (forall f | f in t.families && t.families[f].owner == owner :: t.families[f].status != FamilyActive)
  }

  // ---------- commits that make nothing active ----------

  ghost predicate ClientQuiets(s: Tables, t: Tables, c: ClientId) {
    c in t.clients && t.clients[c].enabled ==>
      c in s.clients && s.clients[c].enabled && t.clients[c].owner == s.clients[c].owner
  }

  ghost predicate GrantQuiets(s: Tables, t: Tables, g: GrantId) {
    g in t.grants && t.grants[g].status == GrantActive ==>
      g in s.grants && s.grants[g].status == GrantActive && t.grants[g].owner == s.grants[g].owner
  }

  ghost predicate FamilyQuiets(s: Tables, t: Tables, f: FamilyId) {
    f in t.families && Open(t.families[f].status) ==>
      && f in s.families && Open(s.families[f].status)
      && (t.families[f].status == FamilyActive ==> s.families[f].status == FamilyActive)
      && t.families[f].owner == s.families[f].owner && t.families[f].grant == s.families[f].grant
      && (t.families[f].grant in t.grants && t.grants[t.families[f].grant].status == GrantRevoked ==>
            t.families[f].grant in s.grants && s.grants[t.families[f].grant].status == GrantRevoked)
  }

  /** What is active afterwards was active before, and who is unpaired afterwards was
      unpaired before or has nothing left. */
  ghost predicate Quiets(s: Tables, t: Tables) {
    && (forall o :: Pending(t, o) ==> Pending(s, o) || Barred(t, o))
    && (forall c :: ClientQuiets(s, t, c)) && (forall g :: GrantQuiets(s, t, g)) && (forall f :: FamilyQuiets(s, t, f))
  }

  lemma QuietsKeepsSeal(s: Tables, t: Tables)
    requires Sealed(s) && Quiets(s, t)
    ensures Sealed(t)
  {
    forall c ensures ClientSealed(t, c) { assert ClientSealed(s, c) && ClientQuiets(s, t, c); }
    forall g ensures GrantSealed(t, g) { assert GrantSealed(s, g) && GrantQuiets(s, t, g); }
    forall f ensures FamilySealed(t, f) { assert FamilySealed(s, f) && FamilyQuiets(s, t, f); }
  }

  lemma SameQuiets(s: Tables)
    ensures Quiets(s, s)
  {
  }

  lemma BootstrapQuiets(s: Tables, supported: set<string>, owner: OwnerId, secret: string, at: int, expiresAt: int)
    requires Inv(s, supported)
    ensures Quiets(s, CreateOwnerBootstrap(s, owner, secret, at, expiresAt).0)
    ensures Quiets(s, WriteConsumed(s, owner, at).0)
  {
    if s.owners == map[] {
      forall c ensures c !in s.clients { assert ClientInv(s, c); }
      forall g ensures g !in s.grants { assert GrantInv(s, supported, g); }
      forall f ensures f !in s.families { assert FamilyInv(s, f); }
    }
  }

  lemma ExpireGrantQuiets(s: Tables, id: GrantId, now: int)
    ensures Quiets(s, ExpireGrant(s, id, now))
  {
  }

  /** Families only end, in whatever way. */
  lemma EndAllQuiets(s: Tables, hit: set<FamilyId>, all: set<FamilyId>, status: FamilyStatus, at: int, reason: string)
    requires status != FamilyActive
    requires forall f | f in hit && f in s.families :: Open(s.families[f].status)
    requires status == FamilyCompromised ==>
               forall f | f in hit && f in s.families && s.families[f].grant in s.grants ::
                 s.grants[s.families[f].grant].status != GrantRevoked
    ensures Quiets(s, EndAll(s, hit, all, status, at, reason))
  {
  }

  lemma FamilyReadQuiets(s: Tables, id: FamilyId, now: int)
    ensures Quiets(s, GetTokenFamily(s, id, now).0)
  {
    SameQuiets(s);
    EndAllQuiets(s, ActiveOnly(s, id), {id}, FamilyExpired, now, "expired");
  }

  lemma RevokeFamilyQuiets(s: Tables, id: FamilyId, owner: OwnerId, at: int, reason: string)
    ensures Quiets(s, RevokeTokenFamily(s, id, owner, at, reason).0)
  {
    SameQuiets(s);
    EndAllQuiets(s, ActiveOnly(s, id), {id}, FamilyRevoked, at, reason);
  }

  lemma RevokeTokenQuiets(s: Tables, token: RefreshToken, client: Option<ClientId>, at: int, reason: string)
    ensures Quiets(s, RevokeRefreshToken(s, token, client, at, reason).0)
  {
    SameQuiets(s);
    if token in s.tokens && s.tokens[token].family in s.families {
      RevokeFamilyQuiets(s, s.tokens[token].family, s.families[s.tokens[token].family].owner, at, reason);
    }
  }

  lemma RotateQuiets(s: Tables, token: RefreshToken, next: RefreshToken, client: ClientId, resource: string, now: int)
    ensures Quiets(s, Rotate(s, token, next, client, resource, now).0)
  {
    SameQuiets(s);
    if Joined(s, token) {
      var f := s.tokens[token].family;
      EndAllQuiets(s, ActiveOnly(s, f), {f}, FamilyExpired, now, "expired");
      if Rotate(s, token, next, client, resource, now).1 == Err(RefreshReuseDetected) {
        EndAllQuiets(s, {f}, {f}, FamilyCompromised, now, "refresh_reuse");
      }
    }
  }

  lemma RevokeGrantQuiets(s: Tables, id: GrantId, owner: OwnerId, at: int, reason: string)
    ensures Quiets(s, RevokeGrant(s, id, owner, at, reason).0)
  {
    SameQuiets(s);
  }

  /** Ending everything of an owner: nothing of that owner stays active. */
  lemma EndOwnerQuiets(s: Tables, supported: set<string>, owner: OwnerId, status: FamilyStatus, at: int, reason: string)
    requires Inv(s, supported) && status in {FamilyRevoked, FamilyReset}
    ensures Quiets(s, EndOwner(s, owner, status, at, reason))
  {
    forall f | f in s.families
      ensures s.families[f].grant in s.grants && s.families[f].owner == s.grants[s.families[f].grant].owner
    {
      assert FamilyInv(s, f);
    }
  }

  lemma ResetQuiets(s: Tables, supported: set<string>, owner: OwnerId, secret: string, at: int, expiresAt: int)
    requires Inv(s, supported)
    ensures Quiets(s, ResetOwnerAccess(s, owner, secret, at, expiresAt).0)
  {
    SameQuiets(s);
    if ResetOwnerAccess(s, owner, secret, at, expiresAt).1.Ok? {
      EndOwnerQuiets(s, supported, owner, FamilyReset, at, "owner_reset");
      var ended := EndOwner(s, owner, FamilyReset, at, "owner_reset");
      var t := ResetOwnerAccess(s, owner, secret, at, expiresAt).0;
      forall c ensures ClientQuiets(s, t, c) {}
      forall g ensures GrantQuiets(s, t, g) { assert GrantQuiets(s, ended, g); }
      forall f ensures FamilyQuiets(s, t, f) { assert FamilyQuiets(s, ended, f); }
    }
  }

  // ---------- the three writes that make something active ----------

  /** Each keeps the seal exactly when what was read before it still holds. */
  lemma WriteClientSeals(s: Tables, client: ClientId, owner: OwnerId, redirect: string, at: int)
    requires Sealed(s) && WriteClient(s, client, owner, redirect, at).1.Ok?
    ensures Sealed(WriteClient(s, client, owner, redirect, at).0) <==> !Pending(s, owner)
  {
    var t := WriteClient(s, client, owner, redirect, at).0;
    assert ClientSealed(s, client);
    if Pending(s, owner) {
      assert !ClientSealed(t, client);
    } else {
      forall c ensures ClientSealed(t, c) { assert ClientSealed(s, c); }
      forall g ensures GrantSealed(t, g) { assert GrantSealed(s, g); }
      forall f ensures FamilySealed(t, f) { assert FamilySealed(s, f); }
    }
  }

  lemma WriteGrantSeals(s: Tables, supported: set<string>, id: GrantId, grant: Grant)
    requires Inv(s, supported) && Sealed(s) && WriteGrant(s, id, grant).1.Ok?
    ensures Sealed(WriteGrant(s, id, grant).0) <==> !Pending(s, grant.owner)
  {
    var t := WriteGrant(s, id, grant).0;
    if Pending(s, grant.owner) {
      assert !GrantSealed(t, id);
    } else {
      forall c ensures ClientSealed(t, c) { assert ClientSealed(s, c); }
      forall g ensures GrantSealed(t, g) { assert GrantSealed(s, g); }
      forall f ensures FamilySealed(t, f) { assert FamilySealed(s, f) && FamilyInv(s, f); }
    }
  }

  lemma WriteFamilySeals(s: Tables, id: FamilyId, row: Family, token: RefreshToken)
    requires Sealed(s) && FamilyFits(s, row) && WriteFamily(s, id, row, token).1.Ok?
    ensures Sealed(WriteFamily(s, id, row, token).0) <==>
              !Pending(s, row.owner) && s.grants[row.grant].status != GrantRevoked
  {
    var t := WriteFamily(s, id, row, token).0;
    if Pending(s, row.owner) || s.grants[row.grant].status == GrantRevoked {
      assert !FamilySealed(t, id);
    } else {
      forall c ensures ClientSealed(t, c) { assert ClientSealed(s, c); }
      forall g ensures GrantSealed(t, g) { assert GrantSealed(s, g); }
      forall f ensures FamilySealed(t, f) { assert FamilySealed(s, f); }
    }
  }

  /** Behind the seal, an unpaired owner has nothing active, refresh tokens included. */
  lemma UnpairedOwnerHasNothing(t: Tables, supported: set<string>, owner: OwnerId)
    requires Inv(t, supported) && Sealed(t) && Pending(t, owner)
    ensures Barred(t, owner)
    ensures forall d | d in t.tokens && t.tokens[d].status == TokenActive ::
              t.tokens[d].family in t.families && t.families[t.tokens[d].family].owner != owner
  {
    forall c | c in t.clients && t.clients[c].owner == owner
      ensures !t.clients[c].enabled { assert ClientSealed(t, c); }
    forall g | g in t.grants && t.grants[g].owner == owner ensures t.grants[g].status != GrantActive {
      assert GrantSealed(t, g);
    }
    forall f | f in t.families && t.families[f].owner == owner ensures t.families[f].status != FamilyActive {
      assert FamilySealed(t, f);
    }
    forall d | d in t.tokens && t.tokens[d].status == TokenActive
      ensures t.tokens[d].family in t.families && t.families[t.tokens[d].family].owner != owner
    {
      assert TokenInv(t, d);
      assert FamilySealed(t, t.tokens[d].family);
    }
  }
}
