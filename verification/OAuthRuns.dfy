/** Whole runs of the authorization server beside the owner's commands: what holds in every
    interleaving of their commits, and after every restart. */
module OAuthRuns {
  import opened AuthInvariant
  import opened AuthTables
  import opened OAuth
  import opened OAuthInvariant
  import opened OAuthMachine
  import opened Results

  ghost predicate Run(worlds: seq<World>, steps: seq<Step>, cfg: Config) {
    && |worlds| == |steps| + 1
    && WorldInv(worlds[0], cfg)
    && forall i | 0 <= i < |steps| :: StepAt(worlds, steps, cfg, i)
  }

  ghost predicate StepAt(worlds: seq<World>, steps: seq<Step>, cfg: Config, i: nat)
    requires |worlds| == |steps| + 1 && i < |steps|
  {
    Enabled(worlds[i], cfg, steps[i]) && worlds[i + 1] == Apply(worlds[i], cfg, steps[i])
  }

  lemma {:induction false} RunKeepsInv(worlds: seq<World>, steps: seq<Step>, cfg: Config, i: nat)
    requires Run(worlds, steps, cfg) && i < |worlds|
    ensures WorldInv(worlds[i], cfg)
  {
    hide WorldInv, Apply, Enabled;
    if i > 0 {
      RunKeepsInv(worlds, steps, cfg, i - 1);
      assert StepAt(worlds, steps, cfg, i - 1);
      StepKeepsInv(worlds[i - 1], cfg, steps[i - 1]);
    }
  }

  /** No row is ever deleted, rebound or brought back to life, whatever happens. */
  lemma {:induction false} RunEvolves(worlds: seq<World>, steps: seq<Step>, cfg: Config, i: nat, j: nat)
    requires Run(worlds, steps, cfg) && i <= j < |worlds|
    ensures Evolves(worlds[i].server.tables, worlds[j].server.tables)
  {
    hide WorldInv, Apply, Enabled, Evolves;
    if i == j {
      EvolvesReflexive(worlds[i].server.tables);
    } else {
      RunEvolves(worlds, steps, cfg, i, j - 1);
      RunKeepsInv(worlds, steps, cfg, j - 1);
      assert StepAt(worlds, steps, cfg, j - 1);
      StepKeepsInv(worlds[j - 1], cfg, steps[j - 1]);
      EvolvesTransitive(worlds[i].server.tables, worlds[j - 1].server.tables, worlds[j].server.tables);
    }
  }

  /** Under a drawn identifier nothing is found that was not there before. */
  ghost predicate NothingNew(v: World, w: World, x: string) {
    && x in v.drawn && x in w.drawn
    && (x in w.server.transactions ==> x in v.server.transactions)
    && (x in w.server.codes ==> x in v.server.codes)
    && (x in w.server.tokens ==> x in v.server.tokens && w.server.tokens[x] == v.server.tokens[x])
  }

  lemma NotDrawnAgain(w: World, cfg: Config, step: Step, x: string)
    requires Enabled(w, cfg, step) && x in w.drawn
    ensures NothingNew(w, Apply(w, cfg, step), x)
  {
    hide ServePart;
    ServeAdds(w.server, cfg, w.flight, step);
    assert x !in Draws(step);
  }

  /** An identifier once drawn is never filled again: what is found under it later was
      there all along. */
  lemma {:induction false} EntriesDoNotReturn(worlds: seq<World>, steps: seq<Step>, cfg: Config, i: nat, j: nat,
                                              x: string)
    requires Run(worlds, steps, cfg) && i <= j < |worlds| && x in worlds[i].drawn
    ensures NothingNew(worlds[i], worlds[j], x)
  {
    hide WorldInv, Apply, Enabled;
    if i < j {
      EntriesDoNotReturn(worlds, steps, cfg, i, j - 1, x);
      assert StepAt(worlds, steps, cfg, j - 1);
      NotDrawnAgain(worlds[j - 1], cfg, steps[j - 1], x);
    }
  }

  // ---------- dead families ----------

  /** Neither rotation nor authentication accepts such a family. */
  ghost predicate Dead(t: Tables, f: FamilyId) {
    && f in t.families
    && (t.families[f].status != FamilyActive
        || (t.families[f].grant in t.grants && t.grants[t.families[f].grant].status != GrantActive))
  }

  lemma DeadStays(s: Tables, t: Tables, f: FamilyId)
    requires Dead(s, f) && Evolves(s, t)
    ensures Dead(t, f)
  {
    assert FamilyEvolves(s.families[f], t.families[f]);
  }

  ghost predicate Rotates(w: World, cfg: Config, step: Step, token: RefreshToken) {
    step.RefreshStep? && step.refreshRequest.token == token && step.refreshRequest.resource == cfg.resource
    && Rotate(w.server.tables, token, step.next, step.refreshRequest.client, step.refreshRequest.resource,
              step.readAt).1.Ok?
  }

  ghost function Authenticated(w: World, step: Step): Option<Authorization>
    requires step.BearerCheck? && w.flight.Checking?
  {
    CheckFamily(w.server, w.flight.access, step.familyAt).1
  }

  ghost function Answer(w: World, cfg: Config, step: Step): Result<TokenResponse, OAuthError>
    requires step.IssueStep? && w.flight.Rotating?
  {
    Issue(w.server, cfg, w.flight, step.access, step.at).1
  }

  /** No token of the family rotates, none is issued for it, and no bearer of it authenticates. */
  ghost predicate Refuses(w: World, cfg: Config, step: Step, f: FamilyId) {
    && (forall token | token in w.server.tables.tokens && w.server.tables.tokens[token].family == f ::
          !Rotates(w, cfg, step, token))
    && (step.IssueStep? && w.flight.Rotating? && w.flight.family == f ==> Answer(w, cfg, step).Err?)
    && (step.BearerCheck? && w.flight.Checking? && w.flight.access.family == f ==> Authenticated(w, step).None?)
  }

  lemma DeadRefuses(w: World, cfg: Config, step: Step, f: FamilyId)
    requires WorldInv(w, cfg) && Dead(w.server.tables, f)
    ensures Refuses(w, cfg, step, f)
  {
    hide Inv, AccessInv;
  }

  /** Once dead, a family is refused at every later step of every run. */
  lemma DeadForever(worlds: seq<World>, steps: seq<Step>, cfg: Config, i: nat, j: nat, f: FamilyId)
    requires Run(worlds, steps, cfg) && i <= j < |steps| && Dead(worlds[i].server.tables, f)
    ensures Dead(worlds[j].server.tables, f) && Refuses(worlds[j], cfg, steps[j], f)
  {
    hide WorldInv, Evolves, Dead, Refuses;
    RunEvolves(worlds, steps, cfg, i, j);
    DeadStays(worlds[i].server.tables, worlds[j].server.tables, f);
    RunKeepsInv(worlds, steps, cfg, j);
    DeadRefuses(worlds[j], cfg, steps[j], f);
  }

  // ---------- the shape of every reachable state ----------

  /** A family's tokens occupy the generations 0 up to its current one, each once; all
      older ones are consumed, and the current one is active exactly while the family is. */
  lemma FamilyShape(worlds: seq<World>, steps: seq<Step>, cfg: Config, i: nat, f: FamilyId)
    requires Run(worlds, steps, cfg) && i < |worlds| && f in worlds[i].server.tables.families
    ensures var t := worlds[i].server.tables; var row := t.families[f];
            && (forall k: nat :: HasGeneration(t, f, k) <==> k <= row.generation)
            && (forall a, b | a in t.tokens && b in t.tokens && t.tokens[a].family == t.tokens[b].family == f
                              && t.tokens[a].generation == t.tokens[b].generation :: a == b)
            && (forall d | d in t.tokens && t.tokens[d].family == f ::
                  t.tokens[d].status == (if t.tokens[d].generation < row.generation then TokenConsumed
                                         else if row.status == FamilyActive then TokenActive else TokenRevoked))
  {
    RunKeepsInv(worlds, steps, cfg, i);
    var t := worlds[i].server.tables;
    assert Filled(t, f);
    forall d | d in t.tokens && t.tokens[d].family == f ensures TokenInv(t, d) {}
    forall k: nat | HasGeneration(t, f, k) ensures k <= t.families[f].generation {
      var d :| d in t.tokens && t.tokens[d].family == f && t.tokens[d].generation == k;
      assert TokenInv(t, d);
    }
  }

  /** Rotations preserve the nesting of lifetimes and bindings: a refresh token expires
      with its family, a family and an access token no later than their grant. */
  lemma LifetimesNest(worlds: seq<World>, steps: seq<Step>, cfg: Config, i: nat)
    requires Run(worlds, steps, cfg) && i < |worlds|
    ensures var s := worlds[i].server; var t := s.tables;
            && (forall d | d in t.tokens ::
                  && t.tokens[d].family in t.families
                  && t.tokens[d].expiresAt == t.families[t.tokens[d].family].expiresAt)
            && (forall f | f in t.families ::
                  && t.families[f].grant in t.grants
                  && t.families[f].expiresAt <= t.grants[t.families[f].grant].expiresAt
                  && t.families[f].client == t.grants[t.families[f].grant].client)
            && (forall k | k in s.tokens ::
                  && s.tokens[k].grant in t.grants && s.tokens[k].expiresAt <= t.grants[s.tokens[k].grant].expiresAt
                  && s.tokens[k].scopes == t.grants[s.tokens[k].grant].scopes <= cfg.scopes)
  {
    RunKeepsInv(worlds, steps, cfg, i);
    var s := worlds[i].server;
    var t := s.tables;
    forall d | d in t.tokens ensures TokenInv(t, d) {}
    forall f | f in t.families ensures FamilyInv(t, f) {}
    forall k | k in s.tokens ensures AccessInv(t, s.tokens[k]) && GrantInv(t, cfg.scopes, s.tokens[k].grant) {}
  }

  /** Nothing comes back to life: an inactive grant or family stays inactive. And whatever
      a request in flight still inserts, every family of an ended grant is dead. */
  lemma RevocationClosure(worlds: seq<World>, steps: seq<Step>, cfg: Config, i: nat, j: nat, g: GrantId, f: FamilyId)
    requires Run(worlds, steps, cfg) && i <= j < |worlds|
    ensures var s, t := worlds[i].server.tables, worlds[j].server.tables;
            && (g in s.grants && s.grants[g].status != GrantActive ==>
                  g in t.grants && t.grants[g].status == s.grants[g].status)
            && (f in s.families && s.families[f].status != FamilyActive ==>
                  f in t.families && t.families[f].status != FamilyActive)
            && (g in s.grants && s.grants[g].status != GrantActive && f in t.families && t.families[f].grant == g ==>
                  Dead(t, f))
  {
    RunEvolves(worlds, steps, cfg, i, j);
    var s, t := worlds[i].server.tables, worlds[j].server.tables;
    assert g in s.grants ==> GrantEvolves(s.grants[g], t.grants[g]);
    assert f in s.families ==> FamilyEvolves(s.families[f], t.families[f]);
  }

  // ---------- replay ----------

  /** Presenting a consumed token with its own client and resource is refused and
      leaves its family dead, whatever the clock says and whatever state it was in. */
  lemma ReplayKills(t: Tables, supported: set<string>, token: RefreshToken, next: RefreshToken,
                    client: ClientId, resource: string, now: int)
    requires Inv(t, supported) && token in t.tokens && t.tokens[token].status == TokenConsumed && token != next
    requires t.tokens[token].family in t.families
    requires t.families[t.tokens[token].family].client == client
             && t.families[t.tokens[token].family].resource == resource
    ensures var (after, r) := Rotate(t, token, next, client, resource, now);
            r.Err? && Dead(after, t.tokens[token].family)
  {
    assert TokenInv(t, token);
    assert FamilyInv(t, t.tokens[token].family);
  }

  /** A request that presents a consumed token with its own binding. */
  ghost predicate Replays(w: World, cfg: Config, step: Step) {
    step.RefreshStep?
    && var t, req := w.server.tables, step.refreshRequest;
    && req.resource == cfg.resource
    && req.token in t.tokens && t.tokens[req.token].status == TokenConsumed
    && t.tokens[req.token].family in t.families
    && t.families[t.tokens[req.token].family].client == req.client
    && t.families[t.tokens[req.token].family].resource == req.resource
  }

  lemma ReplayStep(w: World, cfg: Config, step: Step)
    requires WorldInv(w, cfg) && Enabled(w, cfg, step) && Replays(w, cfg, step)
    ensures !Rotates(w, cfg, step, step.refreshRequest.token)
    ensures Dead(Apply(w, cfg, step).server.tables, w.server.tables.tokens[step.refreshRequest.token].family)
  {
    hide Rotate, Inv, Dead;
    var req := step.refreshRequest;
    ReplayKills(w.server.tables, cfg.scopes, req.token, step.next, req.client, req.resource, step.readAt);
  }

  /** Whole-run replay safety: after a replay no token of the family rotates, nothing is
      issued for it and no bearer of it authenticates, in any continuation. */
  lemma ReplayKillsForever(worlds: seq<World>, steps: seq<Step>, cfg: Config, i: nat, j: nat)
    requires Run(worlds, steps, cfg) && i < j < |steps| && Replays(worlds[i], cfg, steps[i])
    ensures !Rotates(worlds[i], cfg, steps[i], steps[i].refreshRequest.token)
    ensures var f := worlds[i].server.tables.tokens[steps[i].refreshRequest.token].family;
            Dead(worlds[j].server.tables, f) && Refuses(worlds[j], cfg, steps[j], f)
  {
    hide WorldInv, Rotates, Dead, Refuses, Apply, Enabled;
    RunKeepsInv(worlds, steps, cfg, i);
    assert StepAt(worlds, steps, cfg, i);
    ReplayStep(worlds[i], cfg, steps[i]);
    DeadForever(worlds, steps, cfg, i + 1, j, worlds[i].server.tables.tokens[steps[i].refreshRequest.token].family);
  }

  predicate Consumed(t: Tables, token: RefreshToken) { token in t.tokens && t.tokens[token].status == TokenConsumed }

  lemma ConsumedStays(s: Tables, t: Tables, token: RefreshToken)
    requires Consumed(s, token) && Evolves(s, t)
    ensures Consumed(t, token)
  {
    assert TokenEvolves(s.tokens[token], t.tokens[token]);
  }

  lemma RotationConsumes(w: World, cfg: Config, step: Step, token: RefreshToken)
    requires Enabled(w, cfg, step) && Rotates(w, cfg, step, token)
    ensures Consumed(Apply(w, cfg, step).server.tables, token)
  {
  }

  lemma ConsumedNeverRotates(w: World, cfg: Config, step: Step, token: RefreshToken)
    requires Consumed(w.server.tables, token)
    ensures !Rotates(w, cfg, step, token)
  {
  }

  /** No refresh token is ever rotated twice. */
  lemma RotatedAtMostOnce(worlds: seq<World>, steps: seq<Step>, cfg: Config, i: nat, j: nat, token: RefreshToken)
    requires Run(worlds, steps, cfg) && i < j < |steps| && Rotates(worlds[i], cfg, steps[i], token)
    ensures !Rotates(worlds[j], cfg, steps[j], token)
  {
    hide WorldInv, Rotates, Consumed, Evolves, Apply, Enabled;
    assert StepAt(worlds, steps, cfg, i);
    RotationConsumes(worlds[i], cfg, steps[i], token);
    RunEvolves(worlds, steps, cfg, i + 1, j);
    ConsumedStays(worlds[i + 1].server.tables, worlds[j].server.tables, token);
    ConsumedNeverRotates(worlds[j], cfg, steps[j], token);
  }

  // ---------- revocation, and the barrier for bearers ----------

  lemma EndOwnerKills(t: Tables, supported: set<string>, owner: OwnerId, status: FamilyStatus, at: int, reason: string,
                      f: FamilyId)
    requires Inv(t, supported) && status in {FamilyRevoked, FamilyReset} && f in t.families
             && t.families[f].owner == owner
    ensures Dead(EndOwner(t, owner, status, at, reason), f)
  {
  }

  /** Ending a grant, an owner's access, or resetting the owner kills every family below. */
  lemma CallKills(t: Tables, supported: set<string>, call: Call, f: FamilyId)
    requires Inv(t, supported) && f in t.families
    requires match call
             case EndGrant(grant, owner, _, _) => t.families[f].grant == grant && t.families[f].owner == owner
             case EndAccess(owner, _, _) => t.families[f].owner == owner
             case Reset(owner, secret, at, expiresAt) =>
               t.families[f].owner == owner && |secret| >= 32 && at < expiresAt
             case _ => false
    ensures Dead(Perform(t, call), f)
  {
    assert FamilyInv(t, f);
    assert GrantInv(t, supported, t.families[f].grant);
    match call
    case EndAccess(owner, at, reason) => EndOwnerKills(t, supported, owner, FamilyRevoked, at, reason, f);
    case Reset(owner, _, at, _) => EndOwnerKills(t, supported, owner, FamilyReset, at, "owner_reset", f);
    case _ =>
  }

  /** Revoking any stored refresh token, or any access token that has not expired,
      kills its family. */
  lemma RevokeKills(s: Server, cfg: Config, token: string, client: Option<ClientId>, now: int, at: int)
    requires ServerInv(s, cfg)
    ensures var clean := Cleanup(s, now); var after := Revoke(s, token, client, now, at);
            if token in clean.tokens && (client.None? || clean.tokens[token].client == client.value) then
              Dead(after.tables, clean.tokens[token].family) && token !in after.tokens
            else
              token in s.tables.tokens && s.tables.tokens[token].family in s.tables.families
              && (client.None? || s.tables.families[s.tables.tokens[token].family].client == client.value) ==>
                Dead(after.tables, s.tables.tokens[token].family)
  {
    var clean := Cleanup(s, now);
    if token in clean.tokens {
      assert AccessInv(s.tables, clean.tokens[token]);
      assert FamilyInv(s.tables, clean.tokens[token].family);
    }
  }

  predicate EndsOwner(call: Call, owner: OwnerId) {
    match call
    case EndAccess(o, _, _) => o == owner
    case Reset(o, secret, at, expiresAt) => o == owner && |secret| >= 32 && at < expiresAt
    case _ => false
  }

  /** A bearer found in memory when the owner's access is ended has its family killed. */
  lemma CommandKillsBearer(w: World, cfg: Config, step: Step, token: string, owner: OwnerId)
    requires WorldInv(w, cfg) && step.Command? && EndsOwner(step.call, owner)
    requires token in w.server.tokens && w.server.tokens[token].owner == owner
    ensures Dead(Apply(w, cfg, step).server.tables, w.server.tokens[token].family)
  {
    var a := w.server.tokens[token];
    assert AccessInv(w.server.tables, a);
    assert FamilyInv(w.server.tables, a.family);
    CallKills(w.server.tables, cfg.scopes, step.call, a.family);
  }

  /** The barrier for bearers, whatever is in flight: one issued before an owner's access was
      ended or reset never authenticates again, not even after a new pairing. */
  lemma OldBearersStayOut(worlds: seq<World>, steps: seq<Step>, cfg: Config, i: nat, j: nat, owner: OwnerId)
    requires Run(worlds, steps, cfg) && i < j < |steps|
    requires steps[i].Command? && EndsOwner(steps[i].call, owner)
    requires steps[j].BearerCheck? && worlds[j].flight.Checking? && worlds[j].flight.token in worlds[i].drawn
    requires worlds[j].flight.access.owner == owner
    ensures Authenticated(worlds[j], steps[j]) == None
  {
    hide Apply, Enabled, Dead, Inv, Evolves;
    var x := worlds[j].flight.token;
    EntriesDoNotReturn(worlds, steps, cfg, i, j, x);
    RunKeepsInv(worlds, steps, cfg, i);
    RunKeepsInv(worlds, steps, cfg, j);
    assert StepAt(worlds, steps, cfg, i);
    CommandKillsBearer(worlds[i], cfg, steps[i], x, owner);
    DeadForever(worlds, steps, cfg, i + 1, j, worlds[j].flight.access.family);
  }

  // ---------- one-use transactions and codes ----------

  ghost predicate FindsTransaction(w: World, step: Step, id: string) {
    step.ApproveCheck? && step.id == id && id in Cleanup(w.server, step.now).transactions
  }

  /** The transaction has been taken, and nothing is left that was taken with it. */
  ghost predicate Spent(w: World, id: string) {
    id in w.drawn && id !in w.server.transactions && (w.flight.Granting? ==> w.flight.id != id)
  }

  lemma SpentStays(w: World, cfg: Config, step: Step, id: string)
    requires Enabled(w, cfg, step) && Spent(w, id)
    ensures Spent(Apply(w, cfg, step), id) && !FindsTransaction(w, step, id)
  {
    NotDrawnAgain(w, cfg, step, id);
  }

  lemma {:induction false} SpentForever(worlds: seq<World>, steps: seq<Step>, cfg: Config, i: nat, j: nat, id: string)
    requires Run(worlds, steps, cfg) && i <= j < |worlds| && Spent(worlds[i], id)
    ensures Spent(worlds[j], id) && (j < |steps| ==> !FindsTransaction(worlds[j], steps[j], id))
  {
    hide Spent, FindsTransaction, Apply, Enabled, WorldInv;
    if i < j {
      SpentForever(worlds, steps, cfg, i, j - 1, id);
      assert StepAt(worlds, steps, cfg, j - 1);
      SpentStays(worlds[j - 1], cfg, steps[j - 1], id);
    }
    if j < |steps| {
      assert StepAt(worlds, steps, cfg, j);
      SpentStays(worlds[j], cfg, steps[j], id);
    }
  }

  lemma ApprovalWriteSpends(w: World, cfg: Config, step: Step)
    requires WorldInv(w, cfg) && Enabled(w, cfg, step) && step.ApproveWrite?
    ensures Spent(Apply(w, cfg, step), w.flight.id)
    ensures Apply(w, cfg, step).server.codes.Keys <= w.server.codes.Keys + {step.code}
  {
    NotDrawnAgain(w, cfg, step, w.flight.id);
  }

  /** A transaction yields at most one code, however its approval is interrupted: a second
      write of a code is for another transaction. */
  lemma CodePerTransaction(worlds: seq<World>, steps: seq<Step>, cfg: Config, i: nat, j: nat)
    requires Run(worlds, steps, cfg) && i < j < |steps| && steps[i].ApproveWrite? && steps[j].ApproveWrite?
    requires worlds[i].flight.Granting? && worlds[j].flight.Granting?
    ensures worlds[j].flight.id != worlds[i].flight.id
    ensures worlds[i + 1].server.codes.Keys <= worlds[i].server.codes.Keys + {steps[i].code}
  {
    hide Apply, Enabled, WorldInv;
    RunKeepsInv(worlds, steps, cfg, i);
    assert StepAt(worlds, steps, cfg, i);
    ApprovalWriteSpends(worlds[i], cfg, steps[i]);
    SpentForever(worlds, steps, cfg, i + 1, j, worlds[i].flight.id);
  }

  lemma ApprovalTakes(w: World, cfg: Config, step: Step, id: string)
    requires WorldInv(w, cfg) && Enabled(w, cfg, step) && FindsTransaction(w, step, id)
    ensures id in Apply(w, cfg, step).drawn && id !in Apply(w, cfg, step).server.transactions
  {
    hide GrantRefusal;
  }

  /** Whether approved, denied or failed, a transaction is found by one approval only. */
  lemma TransactionUsedOnce(worlds: seq<World>, steps: seq<Step>, cfg: Config, i: nat, j: nat, id: string)
    requires Run(worlds, steps, cfg) && i < j < |steps| && FindsTransaction(worlds[i], steps[i], id)
    ensures !FindsTransaction(worlds[j], steps[j], id)
  {
    hide Apply, Enabled, WorldInv;
    RunKeepsInv(worlds, steps, cfg, i);
    assert StepAt(worlds, steps, cfg, i);
    ApprovalTakes(worlds[i], cfg, steps[i], id);
    EntriesDoNotReturn(worlds, steps, cfg, i + 1, j, id);
  }

  ghost predicate FindsCode(w: World, step: Step, code: string) {
    step.CodeRead? && step.codeRequest.code == code && code in Cleanup(w.server, step.now).codes
  }

  ghost predicate Redeems(flight: Flight, code: string) {
    (flight.Redeeming? || flight.Inserting?) && flight.code == code
  }

  /** The code has been taken, and no request that took it is left. */
  ghost predicate Redeemed(w: World, code: string) {
    code in w.drawn && code !in w.server.codes && !Redeems(w.flight, code)
  }

  lemma RedeemedStays(w: World, cfg: Config, step: Step, code: string)
    requires Enabled(w, cfg, step) && Redeemed(w, code)
    ensures Redeemed(Apply(w, cfg, step), code) && !FindsCode(w, step, code)
  {
    NotDrawnAgain(w, cfg, step, code);
  }

  lemma {:induction false} RedeemedForever(worlds: seq<World>, steps: seq<Step>, cfg: Config, i: nat, j: nat,
                                           code: string)
    requires Run(worlds, steps, cfg) && i <= j < |worlds| && Redeemed(worlds[i], code)
    ensures Redeemed(worlds[j], code) && (j < |steps| ==> !FindsCode(worlds[j], steps[j], code))
  {
    hide Redeemed, FindsCode, Apply, Enabled, WorldInv;
    if i < j {
      RedeemedForever(worlds, steps, cfg, i, j - 1, code);
      assert StepAt(worlds, steps, cfg, j - 1);
      RedeemedStays(worlds[j - 1], cfg, steps[j - 1], code);
    }
    if j < |steps| {
      assert StepAt(worlds, steps, cfg, j);
      RedeemedStays(worlds[j], cfg, steps[j], code);
    }
  }

  lemma InsertionRedeems(w: World, cfg: Config, step: Step)
    requires WorldInv(w, cfg) && Enabled(w, cfg, step) && step.CodeInsert?
    ensures Redeemed(Apply(w, cfg, step), w.flight.code)
  {
    NotDrawnAgain(w, cfg, step, w.flight.code);
  }

  /** A code yields at most one token response: a second insertion is for another code. */
  lemma ResponsePerCode(worlds: seq<World>, steps: seq<Step>, cfg: Config, i: nat, j: nat)
    requires Run(worlds, steps, cfg) && i < j < |steps| && steps[i].CodeInsert? && steps[j].CodeInsert?
    requires worlds[i].flight.Inserting? && worlds[j].flight.Inserting?
    ensures worlds[j].flight.code != worlds[i].flight.code
  {
    hide Apply, Enabled, WorldInv;
    RunKeepsInv(worlds, steps, cfg, i);
    assert StepAt(worlds, steps, cfg, i);
    InsertionRedeems(worlds[i], cfg, steps[i]);
    RedeemedForever(worlds, steps, cfg, i + 1, j, worlds[i].flight.code);
  }

  lemma ExchangeTakes(w: World, cfg: Config, step: Step, code: string)
    requires WorldInv(w, cfg) && Enabled(w, cfg, step) && FindsCode(w, step, code)
    ensures code in Apply(w, cfg, step).drawn && code !in Apply(w, cfg, step).server.codes
  {
    hide GetGrant;
  }

  /** Whether exchanged or refused, a code is found by one exchange only. */
  lemma CodeUsedOnce(worlds: seq<World>, steps: seq<Step>, cfg: Config, i: nat, j: nat, code: string)
    requires Run(worlds, steps, cfg) && i < j < |steps| && FindsCode(worlds[i], steps[i], code)
    ensures !FindsCode(worlds[j], steps[j], code)
  {
    hide Apply, Enabled, WorldInv;
    RunKeepsInv(worlds, steps, cfg, i);
    assert StepAt(worlds, steps, cfg, i);
    ExchangeTakes(worlds[i], cfg, steps[i], code);
    EntriesDoNotReturn(worlds, steps, cfg, i + 1, j, code);
  }

  /** Pending transactions stay within the configured maximum under any interleaving. */
  lemma PendingBounded(worlds: seq<World>, steps: seq<Step>, cfg: Config, i: nat)
    requires Run(worlds, steps, cfg) && i < |worlds|
    ensures |worlds[i].server.transactions| <= cfg.maxPending
  {
    RunKeepsInv(worlds, steps, cfg, i);
  }
}
