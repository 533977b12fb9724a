/** The tables of packages/auth/src/auth-store.js and its transactions on them as
    functions of the stored rows. Digests are injective, so a secret, a refresh token
    and their digests are identified; times are milliseconds and need not advance. Where
    a method reads before it writes in a commit of its own, so that another process can
    commit in between, the two are functions of their own. */
module AuthTables {
  import opened Results

  type OwnerId = string
  type ClientId = string
  type GrantId = string
  type FamilyId = string
  type RefreshToken = string

  datatype Owner = Owner(secret: string, bootstrapExpiresAt: int, bootstrapConsumedAt: Option<int>, enabled: bool)

  datatype Client = Client(owner: OwnerId, redirect: string, createdAt: int, enabled: bool)

  datatype GrantStatus = GrantActive | GrantExpired | GrantRevoked

  datatype Grant = Grant(
    owner: OwnerId, client: ClientId, resource: string, scopes: set<string>, profile: string,
    grantedAt: int, expiresAt: int, status: GrantStatus)

  datatype FamilyStatus = FamilyActive | FamilyExpired | FamilyRevoked | FamilyCompromised | FamilyReset

  datatype Family = Family(
    grant: GrantId, owner: OwnerId, client: ClientId, resource: string,
    createdAt: int, expiresAt: int, status: FamilyStatus,
    revokedAt: Option<int>, reason: Option<string>, generation: nat)

  datatype TokenStatus = TokenActive | TokenConsumed | TokenRevoked

  datatype Token = Token(
    family: FamilyId, generation: nat, issuedAt: int, expiresAt: int,
    consumedAt: Option<int>, status: TokenStatus)

  datatype Tables = Tables(
    owners: map<OwnerId, Owner>, clients: map<ClientId, Client>, grants: map<GrantId, Grant>,
    families: map<FamilyId, Family>, tokens: map<RefreshToken, Token>)

  datatype AuthError =
    | OwnerAlreadyExists | InvalidBootstrap | BootstrapUnavailable | BootstrapExpired | BootstrapDenied
    | OwnerNotBootstrapped | ClientConflict | InvalidClient | InvalidScope | InvalidGrant
    | InvalidTokenFamily | InvalidRefreshToken | RefreshInactive | RefreshReuseDetected
    | InvalidOwner | StorageFailure

  // ---------- owner bootstrap and clients ----------

  function CreateOwnerBootstrap(t: Tables, owner: OwnerId, secret: string, createdAt: int, expiresAt: int)
    : (Tables, Result<Owner, AuthError>)
  {
    if |secret| < 32 || expiresAt <= createdAt then (t, Err(InvalidBootstrap))
    else if t.owners != map[] then (t, Err(OwnerAlreadyExists))
    else
      var row := Owner(secret, expiresAt, None, true);
      (t.(owners := t.owners[owner := row]), Ok(row))
  }

  /** The update that consumes a bootstrap, whatever was read before it. */
  function WriteConsumed(t: Tables, owner: OwnerId, now: int): (Tables, Result<Owner, AuthError>) {
    if owner !in t.owners || !t.owners[owner].enabled || t.owners[owner].bootstrapConsumedAt.Some? then
      (t, Err(BootstrapUnavailable))
    else
      var row := t.owners[owner].(bootstrapConsumedAt := Some(now));
      (t.(owners := t.owners[owner := row]), Ok(row))
  }

  /** The owners table holds at most one row, so the one selected is `owner`. */
  function ConsumeOwnerBootstrap(t: Tables, owner: OwnerId, secret: string, now: int)
    : (Tables, Result<Owner, AuthError>)
  {
    if owner !in t.owners || !t.owners[owner].enabled || t.owners[owner].bootstrapConsumedAt.Some? then
      (t, Err(BootstrapUnavailable))
    else if t.owners[owner].bootstrapExpiresAt <= now then (t, Err(BootstrapExpired))
    else if secret != t.owners[owner].secret then (t, Err(BootstrapDenied))
    else WriteConsumed(t, owner, now)
  }

  /** What the registration of a client reads first. */
  predicate Paired(t: Tables, owner: OwnerId) {
    owner in t.owners && t.owners[owner].enabled && t.owners[owner].bootstrapConsumedAt.Some?
  }

  /** What it writes afterwards, in a commit of its own: an insertion or, when that
      conflicts with the same client, an update. */
  function WriteClient(t: Tables, client: ClientId, owner: OwnerId, redirect: string, createdAt: int)
    : (Tables, Result<Client, AuthError>)
  {
    if client !in t.clients then
      var row := Client(owner, redirect, createdAt, true);
      (t.(clients := t.clients[client := row]), Ok(row))
    else if t.clients[client].owner != owner || t.clients[client].redirect != redirect then
      (t, Err(ClientConflict))
    else if t.clients[client].enabled then (t, Ok(t.clients[client]))
    else
      var row := t.clients[client].(enabled := true, createdAt := createdAt);
      (t.(clients := t.clients[client := row]), Ok(row))
  }

  /** Both, when nothing intervenes. */
  function RegisterClient(t: Tables, client: ClientId, owner: OwnerId, redirect: string, createdAt: int)
    : (Tables, Result<Client, AuthError>)
  {
    if !Paired(t, owner) then (t, Err(OwnerNotBootstrapped)) else WriteClient(t, client, owner, redirect, createdAt)
  }

  // ---------- grants ----------

  function ExpireGrant(t: Tables, id: GrantId, now: int): Tables {
    if id in t.grants && t.grants[id].status == GrantActive && t.grants[id].expiresAt <= now
    then t.(grants := t.grants[id := t.grants[id].(status := GrantExpired)])
    else t
  }

  function GetGrant(t: Tables, id: GrantId, now: int): (Tables, Option<Grant>) {
    var after := ExpireGrant(t, id, now);
    (after, if id in after.grants then Some(after.grants[id]) else None)
  }

  /** What the creation of a grant checks first. */
  function GrantRefusal(t: Tables, supported: set<string>, grant: Grant): Option<AuthError> {
    if
      || grant.client !in t.clients
      || !t.clients[grant.client].enabled
      || t.clients[grant.client].owner != grant.owner
    then
      Some(InvalidClient)
    else if grant.scopes == {} || !(grant.scopes <= supported) then Some(InvalidScope)
    else if grant.expiresAt <= grant.grantedAt then Some(InvalidGrant)
    else None
  }

  /** The insertion, in a commit of its own. */
  function WriteGrant(t: Tables, id: GrantId, grant: Grant): (Tables, Result<Grant, AuthError>) {
    if id in t.grants then (t, Err(StorageFailure))
    else
      var row := grant.(status := GrantActive);
      (t.(grants := t.grants[id := row]), Ok(row))
  }

  /** Both, when nothing intervenes. */
  function CreateGrant(t: Tables, supported: set<string>, id: GrantId, grant: Grant)
    : (Tables, Result<Grant, AuthError>)
  {
    var refusal := GrantRefusal(t, supported, grant);
    if refusal.Some? then (t, Err(refusal.value)) else WriteGrant(t, id, grant)
  }

  // ---------- families and refresh tokens ----------

  function EndFamilies(families: map<FamilyId, Family>, hit: set<FamilyId>, status: FamilyStatus, at: int,
                       reason: string)
    : map<FamilyId, Family>
  {
    map f | f in families ::
      if f in hit then families[f].(status := status, revokedAt := Some(at), reason := Some(reason)) else families[f]
  }

  function RevokeTokens(tokens: map<RefreshToken, Token>, owners: set<FamilyId>): map<RefreshToken, Token> {
    map d | d in tokens ::
      if tokens[d].family in owners && tokens[d].status == TokenActive
      then tokens[d].(status := TokenRevoked) else tokens[d]
  }

  /** The two statements every revocation issues: end the families in `hit` (those
      with a status the statement names), revoke the active tokens of `all`. */
  function EndAll(t: Tables, hit: set<FamilyId>, all: set<FamilyId>, status: FamilyStatus, at: int,
                  reason: string): Tables {
    t.(families := EndFamilies(t.families, hit, status, at, reason), tokens := RevokeTokens(t.tokens, all))
  }

  function ActiveOnly(t: Tables, id: FamilyId): set<FamilyId> {
    if id in t.families && t.families[id].status == FamilyActive then {id} else {}
  }

  function ExpireFamily(t: Tables, id: FamilyId, now: int): Tables {
    EndAll(t, ActiveOnly(t, id), {id}, FamilyExpired, now, "expired")
  }

  function GetTokenFamily(t: Tables, id: FamilyId, now: int): (Tables, Option<Family>) {
    if id !in t.families then (t, None)
    else
      var after := if t.families[id].status == FamilyActive && t.families[id].expiresAt <= now
                   then ExpireFamily(t, id, now) else t;
      (after, Some(after.families[id]))
  }

  predicate GenerationTaken(tokens: map<RefreshToken, Token>, family: FamilyId, generation: nat) {
    exists d | d in tokens :: tokens[d].family == family && tokens[d].generation == generation
  }

  /** What the creation of a family reads first; the reading may expire the grant. */
  function CheckFamilyGrant(
    t: Tables, grant: GrantId, owner: OwnerId, client: ClientId, resource: string, createdAt: int, expiresAt: int)
    : (Tables, Option<AuthError>)
  {
    var (t, g) := GetGrant(t, grant, createdAt);
    if g.None? || g.value.status != GrantActive
       || g.value.owner != owner || g.value.client != client || g.value.resource != resource then
      (t, Some(InvalidGrant))
    else if expiresAt <= createdAt || expiresAt > g.value.expiresAt then (t, Some(InvalidTokenFamily))
    else (t, None)
  }

  function NewFamily(
    grant: GrantId, owner: OwnerId, client: ClientId, resource: string, createdAt: int, expiresAt: int): Family
  {
    Family(grant, owner, client, resource, createdAt, expiresAt, FamilyActive, None, None, 0)
  }

  /** The transaction that inserts the family and its first token. */
  function WriteFamily(t: Tables, id: FamilyId, row: Family, token: RefreshToken): (Tables, Result<Family, AuthError>) {
    if id in t.families || token in t.tokens || GenerationTaken(t.tokens, id, 0) then (t, Err(StorageFailure))
    else
      (t.(families := t.families[id := row],
          tokens := t.tokens[token := Token(id, 0, row.createdAt, row.expiresAt, None, TokenActive)]),
       Ok(row))
  }

  /** Both, when nothing intervenes. */
  function CreateTokenFamily(
    t: Tables, id: FamilyId, grant: GrantId, owner: OwnerId, client: ClientId, resource: string,
    token: RefreshToken, createdAt: int, expiresAt: int): (Tables, Result<Family, AuthError>)
  {
    var (t, refusal) := CheckFamilyGrant(t, grant, owner, client, resource, createdAt, expiresAt);
    if refusal.Some? then (t, Err(refusal.value))
    else WriteFamily(t, id, NewFamily(grant, owner, client, resource, createdAt, expiresAt), token)
  }

  /** The row of the three-way join that rotation selects. */
  predicate Joined(t: Tables, token: RefreshToken) {
    && token in t.tokens
    && t.tokens[token].family in t.families
    && t.families[t.tokens[token].family].grant in t.grants
  }

  predicate Usable(token: Token, family: Family, grant: Grant, now: int) {
    && family.status == FamilyActive && grant.status == GrantActive
    && now < family.expiresAt && now < grant.expiresAt && now < token.expiresAt
  }

  /** The tables after a rotation that succeeds. */
  function Rotated(s: Tables, token: RefreshToken, next: RefreshToken, now: int): Tables
    requires Joined(s, token)
  {
    var row := s.tokens[token];
    var family := s.families[row.family];
    s.(tokens := s.tokens[token := row.(status := TokenConsumed, consumedAt := Some(now))]
                         [next := Token(row.family, family.generation + 1, now, family.expiresAt, None, TokenActive)],
       families := s.families[row.family := family.(generation := family.generation + 1)])
  }

  function Rotate(t: Tables, token: RefreshToken, next: RefreshToken, client: ClientId, resource: string, now: int)
    : (Tables, Result<(FamilyId, Family, Grant), AuthError>)
  {
    if token == next || !Joined(t, token) then (t, Err(InvalidRefreshToken))
    else
      var row := t.tokens[token];
      var family := t.families[row.family];
      var grant := t.grants[family.grant];
      if family.client != client || family.resource != resource then (t, Err(InvalidRefreshToken))
      else if !Usable(row, family, grant, now) then
        (if family.status == FamilyActive && family.expiresAt <= now then ExpireFamily(t, row.family, now) else t,
         Err(RefreshInactive))
      else if row.status != TokenActive || row.generation != family.generation then
        (EndAll(t, {row.family}, {row.family}, FamilyCompromised, now, "refresh_reuse"), Err(RefreshReuseDetected))
      else if next in t.tokens || GenerationTaken(t.tokens, row.family, family.generation + 1) then
        (t, Err(StorageFailure))
      else
        var after := Rotated(t, token, next, now);
        (after, Ok((row.family, after.families[row.family], grant)))
  }

  // ---------- revocation and reset ----------

  function RevokeTokenFamily(t: Tables, id: FamilyId, owner: OwnerId, at: int, reason: string): (Tables, bool) {
    if id !in t.families || t.families[id].owner != owner then (t, false)
    else (EndAll(t, ActiveOnly(t, id), {id}, FamilyRevoked, at, reason), true)
  }

  function RevokeRefreshToken(t: Tables, token: RefreshToken, client: Option<ClientId>, at: int, reason: string)
    : (Tables, bool)
  {
    if token !in t.tokens || t.tokens[token].family !in t.families then (t, false)
    else
      var id := t.tokens[token].family;
      if client.Some? && t.families[id].client != client.value then (t, false)
      else RevokeTokenFamily(t, id, t.families[id].owner, at, reason)
  }

  predicate Open(status: FamilyStatus) { status in {FamilyActive, FamilyCompromised} }

  function FamiliesOfGrant(t: Tables, grant: GrantId): set<FamilyId> {
    set f | f in t.families && t.families[f].grant == grant
  }

  function FamiliesOfOwner(t: Tables, owner: OwnerId): set<FamilyId> {
    set f | f in t.families && t.families[f].owner == owner
  }

  function OpenOnly(t: Tables, all: set<FamilyId>): set<FamilyId> {
    set f | f in all && f in t.families && Open(t.families[f].status)
  }

  function RevokeGrant(t: Tables, id: GrantId, owner: OwnerId, at: int, reason: string)
    : (Tables, Result<Grant, AuthError>)
  {
    if id !in t.grants || t.grants[id].owner != owner then (t, Err(InvalidGrant))
    else
      var row := t.grants[id];
      var revoked :=
        if row.status == GrantActive then t.(grants := t.grants[id := row.(status := GrantRevoked)]) else t;
      var all := FamiliesOfGrant(t, id);
      var ended := EndAll(revoked, OpenOnly(t, all), all, FamilyRevoked, at, reason);
      (ended, Ok(ended.grants[id]))
  }

  function RevokeGrantsOf(grants: map<GrantId, Grant>, owner: OwnerId): map<GrantId, Grant> {
    map g | g in grants ::
      if grants[g].owner == owner && grants[g].status == GrantActive
      then grants[g].(status := GrantRevoked)
      else grants[g]
  }

  /** What revoke-all and reset share. */
  function EndOwner(t: Tables, owner: OwnerId, status: FamilyStatus, at: int, reason: string): Tables {
    var all := FamiliesOfOwner(t, owner);
    EndAll(t.(grants := RevokeGrantsOf(t.grants, owner)), OpenOnly(t, all), all, status, at, reason)
  }

  function RevokeOwnerAccess(t: Tables, owner: OwnerId, at: int, reason: string): (Tables, Result<(), AuthError>) {
    if owner !in t.owners then (t, Err(InvalidOwner))
    else (EndOwner(t, owner, FamilyRevoked, at, reason), Ok(()))
  }

  function DisableClientsOf(clients: map<ClientId, Client>, owner: OwnerId): map<ClientId, Client> {
    map c | c in clients :: if clients[c].owner == owner then clients[c].(enabled := false) else clients[c]
  }

  function ResetOwnerAccess(t: Tables, owner: OwnerId, secret: string, at: int, expiresAt: int)
    : (Tables, Result<Owner, AuthError>)
  {
    if |secret| < 32 || expiresAt <= at then (t, Err(InvalidBootstrap))
    else if owner !in t.owners then (t, Err(InvalidOwner))
    else
      var row := Owner(secret, expiresAt, None, true);
      (EndOwner(t, owner, FamilyReset, at, "owner_reset")
         .(clients := DisableClientsOf(t.clients, owner), owners := t.owners[owner := row]),
       Ok(row))
  }
}
