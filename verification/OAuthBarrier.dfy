/** The reset barrier over whole runs: it holds exactly as long as no request writes on a
    reading that an owner's command has undone in between. */
module OAuthBarrier {
  import opened AuthInvariant
  import opened AuthSeal
  import opened AuthTables
  import opened OAuth
  import opened OAuthInvariant
  import opened OAuthMachine
  import opened OAuthRuns
  import opened Results

  /** A write that goes through although what was read before it no longer holds: the owner
      is unpaired, or the grant revoked, when the client, grant or family is written. */
  ghost predicate Stale(w: World, cfg: Config, step: Step)
    requires WorldInv(w, cfg) && Fits(w.flight, step)
  {
    var t, flight := w.server.tables, w.flight;
    match step
    case EnrollWrite =>
      Pending(t, cfg.owner) && WriteClient(t, flight.client, cfg.owner, flight.redirect, flight.at).1.Ok?
    case ResumeWrite(_, _) =>
      Pending(t, cfg.owner)
      && WriteClient(t, flight.request.client, cfg.owner, flight.request.redirect, flight.registeredAt).1.Ok?
    case ApproveWrite(grant, _) => Pending(t, cfg.owner) && grant !in t.grants
    case CodeInsert(ids) =>
      (Pending(t, flight.row.owner) || t.grants[flight.grant].status == GrantRevoked)
      && WriteFamily(t, ids.family, FamilyRow(cfg, flight.grant, flight.row, flight.insertedAt), ids.refresh).1.Ok?
    case _ => false
  }

  lemma CallQuiets(t: Tables, supported: set<string>, call: Call)
    requires Inv(t, supported)
    ensures Quiets(t, Perform(t, call))
  {
    hide Quiets;
    match call
    case Bootstrap(owner, secret, at, expiresAt) => BootstrapQuiets(t, supported, owner, secret, at, expiresAt);
    case Consume(owner, at) => BootstrapQuiets(t, supported, owner, "", at, at);
    case EndGrant(grant, owner, at, reason) => RevokeGrantQuiets(t, grant, owner, at, reason);
    case EndAccess(owner, at, reason) =>
      SameQuiets(t);
      EndOwnerQuiets(t, supported, owner, FamilyRevoked, at, reason);
    case Reset(owner, secret, at, expiresAt) => ResetQuiets(t, supported, owner, secret, at, expiresAt);
  }

  predicate Writes(step: Step) { step.EnrollWrite? || step.ResumeWrite? || step.ApproveWrite? || step.CodeInsert? }

  /** Every other commit of the server makes nothing active. */
  lemma PartQuiets(w: World, cfg: Config, step: Step)
    requires WorldInv(w, cfg) && Fits(w.flight, step) && !Writes(step)
    ensures Quiets(w.server.tables, Apply(w, cfg, step).server.tables)
  {
    hide Quiets, Inv, AccessInv, Rotate, RevokeRefreshToken, RevokeTokenFamily, Perform, ExpireGrant, GetTokenFamily;
    var t := w.server.tables;
    SameQuiets(t);
    match step
    case Command(call) => CallQuiets(t, cfg.scopes, call);
    case CodeRead(req, now, readAt) =>
      if req.code in w.server.codes {
        ExpireGrantQuiets(t, w.server.codes[req.code].grant, readAt);
      }
    case CodeCheck(at) => ExpireGrantQuiets(t, w.flight.grant, at);
    case RefreshStep(req, next, _, readAt) => RotateQuiets(t, req.token, next, req.client, req.resource, readAt);
    case IssueStep(access, at) => IssueAdds(w.server, cfg, w.flight, access, at);
    case RevokeStep(token, from, now, at) => RevokeStepQuiets(Cleanup(w.server, now), token, from, at);
    case BearerRead(token, _, _, grantAt) =>
      if token in w.server.tokens {
        ExpireGrantQuiets(t, w.server.tokens[token].grant, grantAt);
      }
    case BearerCheck(familyAt) => FamilyReadQuiets(t, w.flight.access.family, familyAt);
    case _ =>
  }

  lemma RevokeStepQuiets(s: Server, token: string, client: Option<ClientId>, at: int)
    ensures Quiets(s.tables, RevokeEither(s, token, client, at).tables)
  {
    hide Quiets;
    if token in s.tokens {
      RevokeFamilyQuiets(s.tables, s.tokens[token].family, s.tokens[token].owner, at, "client_revoke");
    }
    RevokeTokenQuiets(s.tables, token, client, at, "client_revoke");
  }

  lemma WriteSealsExactly(w: World, cfg: Config, step: Step)
    requires WorldInv(w, cfg) && Fits(w.flight, step) && Writes(step) && Sealed(w.server.tables)
    ensures Sealed(Apply(w, cfg, step).server.tables) <==> !Stale(w, cfg, step)
  {
    hide Sealed, Inv, AccessInv;
    var t, flight := w.server.tables, w.flight;
    match step
    case EnrollWrite =>
      if WriteClient(t, flight.client, cfg.owner, flight.redirect, flight.at).1.Ok? {
        WriteClientSeals(t, flight.client, cfg.owner, flight.redirect, flight.at);
      }
    case ResumeWrite(_, _) =>
      var req := flight.request;
      if WriteClient(t, req.client, cfg.owner, req.redirect, flight.registeredAt).1.Ok? {
        WriteClientSeals(t, req.client, cfg.owner, req.redirect, flight.registeredAt);
      }
    case ApproveWrite(grant, _) =>
      if grant !in t.grants {
        WriteGrantSeals(t, cfg.scopes, grant, NewGrant(cfg, flight.transaction, flight.grantedAt));
      }
    case CodeInsert(ids) =>
      var row := FamilyRow(cfg, flight.grant, flight.row, flight.insertedAt);
      if WriteFamily(t, ids.family, row, ids.refresh).1.Ok? {
        WriteFamilySeals(t, ids.family, row, ids.refresh);
      }
  }

  /** One step keeps the barrier exactly when it is not a stale write. */
  lemma StepSealsExactly(w: World, cfg: Config, step: Step)
    requires WorldInv(w, cfg) && Fits(w.flight, step) && Sealed(w.server.tables)
    ensures Sealed(Apply(w, cfg, step).server.tables) <==> !Stale(w, cfg, step)
  {
    hide WorldInv, Sealed, Quiets, Apply;
    if Writes(step) {
      WriteSealsExactly(w, cfg, step);
    } else {
      PartQuiets(w, cfg, step);
      QuietsKeepsSeal(w.server.tables, Apply(w, cfg, step).server.tables);
    }
  }

  // ---------- runs ----------

  ghost predicate StaleAt(worlds: seq<World>, steps: seq<Step>, cfg: Config, i: nat)
    requires Run(worlds, steps, cfg) && i < |steps|
  {
    RunKeepsInv(worlds, steps, cfg, i);
    assert StepAt(worlds, steps, cfg, i);
    Stale(worlds[i], cfg, steps[i])
  }

  lemma SealNext(worlds: seq<World>, steps: seq<Step>, cfg: Config, i: nat)
    requires Run(worlds, steps, cfg) && i < |steps| && Sealed(worlds[i].server.tables)
    ensures Sealed(worlds[i + 1].server.tables) <==> !StaleAt(worlds, steps, cfg, i)
  {
    hide WorldInv, Sealed, Apply;
    RunKeepsInv(worlds, steps, cfg, i);
    assert StepAt(worlds, steps, cfg, i);
    StepSealsExactly(worlds[i], cfg, steps[i]);
  }

  lemma {:induction false} SealedWhileFresh(worlds: seq<World>, steps: seq<Step>, cfg: Config, i: nat)
    requires Run(worlds, steps, cfg) && i <= |steps| && Sealed(worlds[0].server.tables)
    requires forall k: nat | k < i :: !StaleAt(worlds, steps, cfg, k)
    ensures Sealed(worlds[i].server.tables)
  {
    hide WorldInv, Sealed, Run, StaleAt;
    if i > 0 {
      SealedWhileFresh(worlds, steps, cfg, i - 1);
      SealNext(worlds, steps, cfg, i - 1);
    }
  }

  /** The barrier holds throughout a run if and only if no write in it was stale. */
  lemma SealedExactly(worlds: seq<World>, steps: seq<Step>, cfg: Config)
    requires Run(worlds, steps, cfg) && Sealed(worlds[0].server.tables)
    ensures (forall i: nat | i <= |steps| :: Sealed(worlds[i].server.tables)) <==>
            (forall i: nat | i < |steps| :: !StaleAt(worlds, steps, cfg, i))
  {
    assert |worlds| == |steps| + 1;
    hide WorldInv, Sealed, Run, StaleAt;
    if forall i: nat | i < |steps| :: !StaleAt(worlds, steps, cfg, i) {
      forall i: nat | i <= |steps| ensures Sealed(worlds[i].server.tables) {
        SealedWhileFresh(worlds, steps, cfg, i);
      }
    }
    if forall i: nat | i <= |steps| :: Sealed(worlds[i].server.tables) {
      forall i: nat | i < |steps| ensures !StaleAt(worlds, steps, cfg, i) {
        SealNext(worlds, steps, cfg, i);
      }
    }
  }

  /** As long as no write was stale, an owner whose bootstrap is unconsumed has nothing
      active, and a revoked grant has no open family. */
  lemma BarrierHolds(worlds: seq<World>, steps: seq<Step>, cfg: Config, i: nat, owner: OwnerId, f: FamilyId)
    requires Run(worlds, steps, cfg) && i <= |steps| && Sealed(worlds[0].server.tables)
    requires forall k: nat | k < i :: !StaleAt(worlds, steps, cfg, k)
    ensures var t := worlds[i].server.tables;
            && (Pending(t, owner) ==>
                  && Barred(t, owner)
                  && forall d | d in t.tokens && t.tokens[d].status == TokenActive ::
                       t.tokens[d].family in t.families && t.families[t.tokens[d].family].owner != owner)
            && (f in t.families && t.families[f].grant in t.grants
                && t.grants[t.families[f].grant].status == GrantRevoked ==>
                  !Open(t.families[f].status))
  {
    SealedWhileFresh(worlds, steps, cfg, i);
    RunKeepsInv(worlds, steps, cfg, i);
    var t := worlds[i].server.tables;
    if Pending(t, owner) {
      UnpairedOwnerHasNothing(t, cfg.scopes, owner);
    }
    assert FamilySealed(t, f);
  }

  // ---------- when no write can be stale ----------

  predicate Ends(call: Call) { call.EndGrant? || call.EndAccess? || call.Reset? }

  /** What the request under way has read still holds. */
  ghost predicate Holds(t: Tables, cfg: Config, flight: Flight) {
    match flight
    case Enrolling(_, _, _) => !Pending(t, cfg.owner)
    case Registering(_, _) => !Pending(t, cfg.owner)
    case Granting(_, _, _) => !Pending(t, cfg.owner)
    case Inserting(_, g, row, _) => !Pending(t, row.owner) && g in t.grants && t.grants[g].status == GrantActive
    case _ => true
  }

  lemma HoldsThroughCommand(t: Tables, cfg: Config, flight: Flight, call: Call)
    requires Holds(t, cfg, flight) && (Ends(call) ==> flight.Idle?)
    requires !flight.Idle? && !flight.Redeeming? && !flight.Rotating? && !flight.Checking? ==> t.owners != map[]
    ensures Holds(Perform(t, call), cfg, flight)
  {
  }

  lemma HoldsAfter(w: World, cfg: Config, step: Step)
    requires WorldInv(w, cfg) && Fits(w.flight, step) && Sealed(w.server.tables)
             && Holds(w.server.tables, cfg, w.flight)
    requires step.Command? && Ends(step.call) ==> w.flight.Idle?
    ensures Holds(Apply(w, cfg, step).server.tables, cfg, Apply(w, cfg, step).flight)
  {
    hide Perform, AccessInv, Rotate, RevokeEither, CheckFamily, AddFamily, AddTransaction, AddCode, Issue, WriteClient;
    var t := w.server.tables;
    match step
    case Command(call) =>
      if w.flight.Inserting? {
        assert GrantInv(t, cfg.scopes, w.flight.grant);
      }
      HoldsThroughCommand(t, cfg, w.flight, call);
    case ApproveCheck(id, _, _, _) =>
      if id in w.server.transactions {
        assert ClientSealed(t, w.server.transactions[id].client);
      }
    case CodeCheck(_) => assert GrantSealed(t, w.flight.grant);
    case _ =>
  }

  lemma HoldsNotStale(w: World, cfg: Config, step: Step)
    requires WorldInv(w, cfg) && Fits(w.flight, step) && Holds(w.server.tables, cfg, w.flight)
    ensures !Stale(w, cfg, step)
  {
  }

  /** No owner's command that ends anything commits between a request's check and its write. */
  ghost predicate Undisturbed(worlds: seq<World>, steps: seq<Step>, n: nat)
    requires n <= |steps| < |worlds|
  {
    forall i | 0 <= i < n && steps[i].Command? && Ends(steps[i].call) :: worlds[i].flight.Idle?
  }

  lemma IdleHolds(w: World, cfg: Config)
    requires w.flight.Idle?
    ensures Holds(w.server.tables, cfg, w.flight)
  {
  }

  lemma EnabledFits(w: World, cfg: Config, step: Step)
    requires Enabled(w, cfg, step)
    ensures Fits(w.flight, step)
  {
  }

  lemma {:induction false} UndisturbedHolds(worlds: seq<World>, steps: seq<Step>, cfg: Config, n: nat)
    requires Run(worlds, steps, cfg) && n <= |steps| && Undisturbed(worlds, steps, n)
    requires Sealed(worlds[0].server.tables) && worlds[0].flight.Idle?
    ensures Sealed(worlds[n].server.tables) && Holds(worlds[n].server.tables, cfg, worlds[n].flight)
  {
    hide WorldInv, Sealed, Holds, Apply, Stale, Enabled;
    if n > 0 {
      UndisturbedHolds(worlds, steps, cfg, n - 1);
      RunKeepsInv(worlds, steps, cfg, n - 1);
      assert StepAt(worlds, steps, cfg, n - 1);
      EnabledFits(worlds[n - 1], cfg, steps[n - 1]);
      HoldsNotStale(worlds[n - 1], cfg, steps[n - 1]);
      StepSealsExactly(worlds[n - 1], cfg, steps[n - 1]);
      HoldsAfter(worlds[n - 1], cfg, steps[n - 1]);
    } else {
      IdleHolds(worlds[0], cfg);
    }
  }

  /** Then no write is stale, and the barrier holds. */
  lemma UndisturbedNeverStale(worlds: seq<World>, steps: seq<Step>, cfg: Config, i: nat)
    requires Run(worlds, steps, cfg) && i < |steps| && Undisturbed(worlds, steps, |steps|)
    requires Sealed(worlds[0].server.tables) && worlds[0].flight.Idle?
    ensures Sealed(worlds[i].server.tables) && !StaleAt(worlds, steps, cfg, i)
  {
    hide Sealed, Holds, Stale, WorldInv;
    UndisturbedHolds(worlds, steps, cfg, i);
    RunKeepsInv(worlds, steps, cfg, i);
    assert StepAt(worlds, steps, cfg, i);
    HoldsNotStale(worlds[i], cfg, steps[i]);
  }
}
