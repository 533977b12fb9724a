/** When each endpoint succeeds, and what it then has done, when no other process commits
    during the request; and that its parts, one after the other, are the endpoint. */
module OAuthEndpoints {
  import opened AuthInvariant
  import opened AuthSeal
  import opened AuthTables
  import opened Numbers
  import opened OAuth
  import opened OAuthInvariant
  import opened OAuthMachine
  import opened OAuthRuns
  import opened Results

  // ---------- authentication ----------

  /** The bearer's grant and family are active and unexpired at the readings taken. */
  ghost predicate Current(s: Server, cfg: Config, token: string, now: int, checkedAt: int, grantAt: int,
                          familyAt: int) {
    && token in s.tokens
    && var a := s.tokens[token];
    && a.resource == cfg.resource && now < a.expiresAt && checkedAt < a.expiresAt
    && a.grant in s.tables.grants && a.family in s.tables.families
    && var g, f := s.tables.grants[a.grant], s.tables.families[a.family];
    && g.status == GrantActive && grantAt < g.expiresAt
    && f.status == FamilyActive && familyAt < f.expiresAt
  }

  /** Authentication succeeds exactly for current bearers; it then changes no table, the
      grant has not expired, the owner is paired unless the barrier is broken, and what is
      returned is the grant's own client, owner, profile and scopes. */
  lemma AuthenticatesExactly(s: Server, cfg: Config, token: string, now: int, checkedAt: int, grantAt: int,
                             familyAt: int)
    requires ServerInv(s, cfg)
    ensures var (after, auth) := Authenticate(s, cfg, token, now, checkedAt, grantAt, familyAt);
            && (auth.Some? <==> Current(s, cfg, token, now, checkedAt, grantAt, familyAt))
            && (auth.Some? ==>
                  && var a := s.tokens[token]; var g := s.tables.grants[a.grant];
                  && after.tables == s.tables
                  && now < g.expiresAt && checkedAt < g.expiresAt
                  && s.tables.families[a.family].grant == a.grant && (Sealed(s.tables) ==> !Pending(s.tables, g.owner))
                  && auth.value == Authorization(g.client, g.scopes, g.owner, a.grant, g.profile, g.expiresAt)
                  && g.scopes <= cfg.scopes && g.resource == cfg.resource)
  {
    if token in s.tokens {
      var a := s.tokens[token];
      assert AccessInv(s.tables, a);
      assert GrantInv(s.tables, cfg.scopes, a.grant);
      assert FamilyInv(s.tables, a.family);
      assert Sealed(s.tables) ==> GrantSealed(s.tables, a.grant);
    }
  }

  /** In two commits: a bearer that was found active is authenticated by the second reading
      exactly if its family is still active and unexpired; then its grant is active, and its
      own binding and scopes are returned. */
  lemma BearerCheckedExactly(w: World, cfg: Config, familyAt: int)
    requires WorldInv(w, cfg) && w.flight.Checking?
    ensures var t, a := w.server.tables, w.flight.access;
            && a.family in t.families && a.grant in t.grants
            && (CheckFamily(w.server, a, familyAt).1.Some? <==>
                  t.families[a.family].status == FamilyActive && familyAt < t.families[a.family].expiresAt)
            && (CheckFamily(w.server, a, familyAt).1.Some? ==>
                  && var g := t.grants[a.grant];
                  && g.status == GrantActive && t.families[a.family].grant == a.grant
                  && CheckFamily(w.server, a, familyAt).1.value ==
                     Authorization(g.client, g.scopes, g.owner, a.grant, g.profile, g.expiresAt)
                  && g.scopes <= cfg.scopes)
  {
    assert AccessInv(w.server.tables, w.server.tokens[w.flight.token]);
    assert GrantInv(w.server.tables, cfg.scopes, w.flight.access.grant);
    assert FamilyInv(w.server.tables, w.flight.access.family);
  }

  // ---------- rotation and refresh ----------

  /** The active token of its family, presented by its own client for its own resource before
      the family expires, with an unused successor. */
  predicate Rotatable(t: Tables, token: RefreshToken, next: RefreshToken, client: ClientId, resource: string,
                      now: int) {
    && next !in t.tokens && token in t.tokens && t.tokens[token].status == TokenActive
    && t.tokens[token].family in t.families
    && var f := t.families[t.tokens[token].family];
    && f.client == client && f.resource == resource && now < f.expiresAt
    && f.grant in t.grants && t.grants[f.grant].status == GrantActive
  }

  function GrantOf(t: Tables, token: RefreshToken): Grant
    requires token in t.tokens && t.tokens[token].family in t.families
    requires t.families[t.tokens[token].family].grant in t.grants
  {
    t.grants[t.families[t.tokens[token].family].grant]
  }

  /** Rotation succeeds exactly for the active token of its family, presented by its own
      client for its own resource before the family expires; its successor is then the
      one active token of the family. */
  lemma RotatesExactly(t: Tables, supported: set<string>, token: RefreshToken, next: RefreshToken,
                       client: ClientId, resource: string, now: int)
    requires Inv(t, supported)
    ensures var (after, r) := Rotate(t, token, next, client, resource, now);
            && (r.Ok? <==> Rotatable(t, token, next, client, resource, now))
            && (r.Ok? ==>
                  && r.value.0 == t.tokens[token].family && r.value.2 == GrantOf(t, token)
                  && next in after.tokens && after.tokens[next].family == t.tokens[token].family
                  && forall d | d in after.tokens && after.tokens[d].family == t.tokens[token].family ::
                       after.tokens[d].status == TokenActive <==> d == next)
  {
    if token in t.tokens {
      assert TokenInv(t, token);
      assert FamilyInv(t, t.tokens[token].family);
      NextGenerationFree(t, supported, t.tokens[token].family);
      if Rotate(t, token, next, client, resource, now).1.Ok? {
        forall d | d in t.tokens && t.tokens[d].family == t.tokens[token].family && d != token
          ensures t.tokens[d].status != TokenActive
        {
          assert TokenInv(t, d);
        }
      }
    }
  }

  /** The rotation that a refresh request commits. */
  function RotationOf(s: Server, req: RefreshRequest, next: RefreshToken, readAt: int)
    : Result<(FamilyId, Family, Grant), AuthError>
  {
    Rotate(s.tables, req.token, next, req.client, req.resource, readAt).1
  }

  /** What the end of a refresh asks of the rotated grant: its own scopes, and time left. */
  predicate Issuable(cfg: Config, grant: Grant, scope: Option<seq<string>>, at: int) {
    RequestedScopes(cfg, grant, scope) == Ok(grant.scopes) && at < Min(at + cfg.accessTtl, grant.expiresAt)
  }

  lemma AnswersExactly(s: Server, cfg: Config, scope: Option<seq<string>>, id: FamilyId, next: RefreshToken,
                       access: string, at: int)
    requires id in s.tables.families && s.tables.families[id].grant in s.tables.grants
    ensures var family := s.tables.families[id]; var grant := s.tables.grants[family.grant];
            AccessAfterRotation(s, cfg, scope, id, next, access, at).1.Ok? <==>
              family.status == FamilyActive && grant.status == GrantActive && Issuable(cfg, grant, scope, at)
    ensures AccessAfterRotation(s, cfg, scope, id, next, access, at).0.tables == s.tables
  {
  }

  lemma RotatedRows(t: Tables, token: RefreshToken, next: RefreshToken, client: ClientId, resource: string, now: int)
    requires Rotate(t, token, next, client, resource, now).1.Ok?
    ensures var (after, r) := Rotate(t, token, next, client, resource, now);
            var (id, family, grant) := r.value;
            && id in after.families && after.families[id] == family && family.status == FamilyActive
            && family.grant in after.grants && after.grants[family.grant] == grant && grant.status == GrantActive
  {
  }

  /** A refresh succeeds if the rotation does and its grant can be issued for; the tables are
      those of the rotation in either case. */
  lemma RefreshesAfterRotation(s: Server, cfg: Config, req: RefreshRequest, ids: Fresh, now: int, readAt: int, at: int)
    ensures var (after, r) := ExchangeRefresh(s, cfg, req, ids, now, readAt, at);
            && (r.Ok? <==>
                  && req.resource == cfg.resource
                  && RotationOf(s, req, ids.refresh, readAt).Ok?
                  && Issuable(cfg, RotationOf(s, req, ids.refresh, readAt).value.2, req.scope, at))
            && after.tables == if req.resource == cfg.resource
                               then Rotate(s.tables, req.token, ids.refresh, req.client, req.resource, readAt).0
                               else s.tables
  {
    hide Rotate, Issuable, AccessAfterRotation;
    var clean := Cleanup(s, now);
    if req.resource == cfg.resource && RotationOf(s, req, ids.refresh, readAt).Ok? {
      RotatedRows(s.tables, req.token, ids.refresh, req.client, req.resource, readAt);
      var (rotated, id) := RotateFor(clean, cfg, req, ids.refresh, readAt);
      AnswersExactly(rotated, cfg, req.scope, id.value, ids.refresh, ids.access, at);
    }
  }

  lemma RotationConsumesExactly(t: Tables, token: RefreshToken, next: RefreshToken, client: ClientId, resource: string,
                                now: int)
    ensures var (after, r) := Rotate(t, token, next, client, resource, now);
            !Consumed(t, token) && Consumed(after, token) <==> r.Ok?
  {
  }

  /** Undisturbed, a refresh succeeds exactly for a token that can be rotated, when the scopes
      asked for are its grant's own and there is time left. */
  lemma RefreshesExactly(s: Server, cfg: Config, req: RefreshRequest, ids: Fresh, now: int, readAt: int, at: int)
    requires ServerInv(s, cfg)
    ensures var (after, r) := ExchangeRefresh(s, cfg, req, ids, now, readAt, at);
            && (r.Ok? <==>
                  && req.resource == cfg.resource
                  && Rotatable(s.tables, req.token, ids.refresh, req.client, req.resource, readAt)
                  && Issuable(cfg, GrantOf(s.tables, req.token), req.scope, at))
            && after.tables == if req.resource == cfg.resource
                               then Rotate(s.tables, req.token, ids.refresh, req.client, req.resource, readAt).0
                               else s.tables
  {
    hide Rotate, Issuable, ExchangeRefresh, Inv;
    RefreshesAfterRotation(s, cfg, req, ids, now, readAt, at);
    RotatesExactly(s.tables, cfg.scopes, req.token, ids.refresh, req.client, req.resource, readAt);
  }

  /** Undisturbed, a refresh is refused although it has consumed the token presented exactly
      when that token could be rotated and then the scope or the time left did not fit. */
  lemma FailsAfterRotatingExactly(s: Server, cfg: Config, req: RefreshRequest, ids: Fresh, now: int, readAt: int,
                                  at: int)
    requires ServerInv(s, cfg)
    ensures var (after, r) := ExchangeRefresh(s, cfg, req, ids, now, readAt, at);
            (r.Err? && !Consumed(s.tables, req.token) && Consumed(after.tables, req.token)) <==>
              && req.resource == cfg.resource
              && Rotatable(s.tables, req.token, ids.refresh, req.client, req.resource, readAt)
              && !Issuable(cfg, GrantOf(s.tables, req.token), req.scope, at)
  {
    hide Rotate, Rotatable, Issuable, ExchangeRefresh, Consumed, Inv;
    var (after, r) := ExchangeRefresh(s, cfg, req, ids, now, readAt, at);
    var (rotated, rotation) := Rotate(s.tables, req.token, ids.refresh, req.client, req.resource, readAt);
    RefreshesExactly(s, cfg, req, ids, now, readAt, at);
    RotatesExactly(s.tables, cfg.scopes, req.token, ids.refresh, req.client, req.resource, readAt);
    RotationConsumesExactly(s.tables, req.token, ids.refresh, req.client, req.resource, readAt);
  }

  // ---------- code exchange ----------

  /** A token response can be used: its refresh token is active in the family that its
      bearer names, and that family and its grant are active. */
  ghost predicate Works(s: Server, response: TokenResponse) {
    && response.access in s.tokens && response.refresh in s.tables.tokens
    && var a, d := s.tokens[response.access], s.tables.tokens[response.refresh];
    && a.family == d.family && d.status == TokenActive && a.scopes == response.scopes
    && a.grant in s.tables.grants && s.tables.grants[a.grant].status == GrantActive
    && a.family in s.tables.families && s.tables.families[a.family].status == FamilyActive
  }

  /** Exactly when the end of a code exchange succeeds, with unused identifiers. */
  lemma CodeResponseWorks(s: Server, cfg: Config, id: GrantId, grant: Grant, ids: Fresh, at: int)
    requires ServerInv(s, cfg) && id in s.tables.grants && s.tables.grants[id] == grant
    requires ids.family !in s.tables.families && ids.refresh !in s.tables.tokens
    requires cfg.refreshTtl >= 1 && cfg.accessTtl >= 1
    ensures var (after, r) := FamilyThenAccess(s, cfg, id, grant, ids, at);
            && (r.Ok? <==> grant.status == GrantActive && at < grant.expiresAt)
            && (r.Ok? ==>
                  && Works(after, r.value)
                  && after.tokens[ids.access].expiresAt == Min(at + cfg.accessTtl, grant.expiresAt)
                  && after.tables.families[ids.family].expiresAt == Min(at + cfg.refreshTtl, grant.expiresAt))
  {
    forall d | d in s.tables.tokens ensures s.tables.tokens[d].family != ids.family {
      assert TokenInv(s.tables, d);
    }
  }

  lemma RefreshResponseWorks(s: Server, cfg: Config, req: RefreshRequest, ids: Fresh, now: int, readAt: int, at: int)
    ensures var (after, r) := ExchangeRefresh(s, cfg, req, ids, now, readAt, at);
            r.Ok? ==> Works(after, r.value) && after.tokens[r.value.access].expiresAt <= at + cfg.accessTtl
  {
    hide Cleanup;
  }

  /** The server after a code has been taken and its grant read. */
  function GrantRead(s: Server, code: string, readAt: int): Server
    requires code in s.codes
  {
    s.(codes := s.codes - {code}, tables := ExpireGrant(s.tables, s.codes[code].grant, readAt))
  }

  lemma GrantReadWorks(s: Server, cfg: Config, code: string, ids: Fresh, readAt: int, at: int)
    requires ServerInv(s, cfg) && code in s.codes && s.codes[code].grant in s.tables.grants
    requires ids.family !in s.tables.families && ids.refresh !in s.tables.tokens
    requires cfg.refreshTtl >= 1 && cfg.accessTtl >= 1
    ensures var read, id := GrantRead(s, code, readAt), s.codes[code].grant;
            id in read.tables.grants
            && var g := read.tables.grants[id];
               FamilyThenAccess(read, cfg, id, g, ids, at).1.Ok? <==> g.status == GrantActive && at < g.expiresAt
  {
    var id := s.codes[code].grant;
    var taken := s.(codes := s.codes - {code});
    DropSafe(s, cfg, taken);
    ExpireGrantSafe(taken.tables, cfg.scopes, id, readAt);
    TablesStep(taken, cfg, ExpireGrant(taken.tables, id, readAt));
    var read := GrantRead(s, code, readAt);
    CodeResponseWorks(read, cfg, id, read.tables.grants[id], ids, at);
  }

  /** The code's own client, redirect, resource and verifier, and its grant still current. */
  ghost predicate Redeemable(s: Server, cfg: Config, req: CodeRequest, readAt: int, at: int)
    requires req.code in s.codes
  {
    var t, id := s.codes[req.code].transaction, s.codes[req.code].grant;
    && CodeMatches(t, req) && id in s.tables.grants
    && var g := s.tables.grants[id];
    && g.status == GrantActive && readAt < g.expiresAt && at < g.expiresAt
    && g.owner == cfg.owner && g.client == t.client && g.resource == t.resource && g.scopes == t.scopes
  }

  lemma TakesExactly(s: Server, cfg: Config, req: CodeRequest, ids: Fresh, readAt: int, at: int)
    requires ServerInv(s, cfg)
    requires ids.family !in s.tables.families && ids.refresh !in s.tables.tokens
    requires cfg.refreshTtl >= 1 && cfg.accessTtl >= 1
    ensures ExchangeClean(s, cfg, req, ids, readAt, at).1.Ok? <==>
            req.code in s.codes && Redeemable(s, cfg, req, readAt, at)
  {
    hide Inv, AccessInv, FamilyThenAccess;
    if req.code in s.codes && s.codes[req.code].grant in s.tables.grants {
      GrantReadWorks(s, cfg, req.code, ids, readAt, at);
    }
  }

  /** An approved, unexpired code presented by its own client with the right verifier is
      exchanged; any other presentation of it is refused. */
  lemma ExchangesExactly(s: Server, cfg: Config, req: CodeRequest, ids: Fresh, now: int, readAt: int, at: int)
    requires ServerInv(s, cfg)
    requires ids.family !in s.tables.families && ids.refresh !in s.tables.tokens
    requires cfg.refreshTtl >= 1 && cfg.accessTtl >= 1
    ensures ExchangeCode(s, cfg, req, ids, now, readAt, at).1.Ok? <==>
              req.code in s.codes && now < s.codes[req.code].expiresAt && Redeemable(s, cfg, req, readAt, at)
  {
    hide Inv, AccessInv, ExchangeClean;
    CleanupSafe(s, cfg, now);
    TakesExactly(Cleanup(s, now), cfg, req, ids, readAt, at);
  }

  // ---------- an endpoint is its parts ----------

  /** The steps of one request, as far as it goes. */
  function Serving(s: Server, cfg: Config, flight: Flight, steps: seq<Step>): (Server, Flight)
    decreases |steps|
  {
    if steps == [] || !Fits(flight, steps[0]) then (s, flight)
    else
      var (after, next) := ServePart(s, cfg, flight, steps[0]);
      Serving(after, cfg, next, steps[1..])
  }

  lemma ServingTwo(s: Server, cfg: Config, a: Step, b: Step)
    requires Fits(Idle, a)
    ensures var (after, next) := ServePart(s, cfg, Idle, a);
            Serving(s, cfg, Idle, [a, b]) == if Fits(next, b) then ServePart(after, cfg, next, b) else (after, next)
  {
    assert [a, b][1..] == [b] && [b][1..] == [];
    var (after, next) := ServePart(s, cfg, Idle, a);
    if Fits(next, b) {
      var (last, end) := ServePart(after, cfg, next, b);
      assert Serving(last, cfg, end, []) == (last, end);
    }
  }

  /** When nothing commits in between, the parts of each request leave the server as the
      endpoint does. */
  lemma PartsOfApproval(s: Server, cfg: Config, id: string, secret: string, grant: GrantId, code: string, now: int,
                        at: int)
    ensures Serving(s, cfg, Idle, [ApproveCheck(id, secret, now, at), ApproveWrite(grant, code)]) ==
            (Approve(s, cfg, id, secret, grant, code, now, at).0, Idle)
  {
    ServingTwo(s, cfg, ApproveCheck(id, secret, now, at), ApproveWrite(grant, code));
  }

  lemma PartsOfRegistration(s: Server, cfg: Config, request: AuthorizationRequest, id: string, registeredAt: int,
                            now: int)
    ensures Serving(s, cfg, Idle, [ResumeCheck(request, registeredAt), ResumeWrite(id, now)]) ==
            (Resume(s, cfg, request, id, registeredAt, now).0, Idle)
  {
    ServingTwo(s, cfg, ResumeCheck(request, registeredAt), ResumeWrite(id, now));
  }

  lemma PartsOfRefresh(s: Server, cfg: Config, req: RefreshRequest, ids: Fresh, now: int, readAt: int, at: int)
    ensures Serving(s, cfg, Idle, [RefreshStep(req, ids.refresh, now, readAt), IssueStep(ids.access, at)]) ==
            (ExchangeRefresh(s, cfg, req, ids, now, readAt, at).0, Idle)
  {
    hide Rotate, AccessAfterRotation, Cleanup;
    ServingTwo(s, cfg, RefreshStep(req, ids.refresh, now, readAt), IssueStep(ids.access, at));
    if RotateFor(Cleanup(s, now), cfg, req, ids.refresh, readAt).1.Ok? {
      RotatedRows(Cleanup(s, now).tables, req.token, ids.refresh, req.client, req.resource, readAt);
    }
  }

  lemma PartsOfAuthentication(s: Server, cfg: Config, token: string, now: int, checkedAt: int, grantAt: int,
                              familyAt: int)
    ensures Serving(s, cfg, Idle, [BearerRead(token, now, checkedAt, grantAt), BearerCheck(familyAt)]) ==
            (Authenticate(s, cfg, token, now, checkedAt, grantAt, familyAt).0, Idle)
  {
    hide Cleanup, GetGrant, CheckFamily;
    ServingTwo(s, cfg, BearerRead(token, now, checkedAt, grantAt), BearerCheck(familyAt));
  }

  lemma PartsOfExchange(s: Server, cfg: Config, req: CodeRequest, ids: Fresh, now: int, readAt: int, at: int)
    ensures Serving(s, cfg, Idle, [CodeRead(req, now, readAt), CodeCheck(at), CodeInsert(ids)]) ==
            (ExchangeCode(s, cfg, req, ids, now, readAt, at).0, Idle)
  {
    hide Cleanup, TakeCode, RecheckGrant, AddFamily;
    var a, b, c := CodeRead(req, now, readAt), CodeCheck(at), CodeInsert(ids);
    assert [a, b, c][1..] == [b, c] && [b, c][1..] == [c] && [c][1..] == [];
    var (taken, g) := TakeCode(Cleanup(s, now), cfg, req, readAt);
    if g.Ok? {
      var flight := Redeeming(req.code, g.value.0, g.value.1);
      var (checked, ok) := RecheckGrant(taken, cfg, g.value.0, g.value.1, at);
      assert ServePart(s, cfg, Idle, a) == (taken, flight);
      if ok {
        var inserting := Inserting(req.code, g.value.0, g.value.1, at);
        assert ServePart(taken, cfg, flight, b) == (checked, inserting);
        var (last, end) := ServePart(checked, cfg, inserting, c);
        assert Serving(last, cfg, end, []) == (last, end);
        assert Serving(checked, cfg, inserting, [c]) == (last, end);
      } else {
        assert Serving(checked, cfg, Idle, [c]) == (checked, Idle);
      }
      assert Serving(taken, cfg, flight, [b, c]).0 == ExchangeCode(s, cfg, req, ids, now, readAt, at).0;
    } else {
      assert Serving(taken, cfg, Idle, [b, c]) == (taken, Idle);
    }
  }
}
