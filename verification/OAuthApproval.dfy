/** Over whole runs: nothing is granted without the configured secret, and a code goes only to
    the redirect under which its client is stored. */
module OAuthApproval {
  import opened AuthExact
  import opened AuthInvariant
  import opened AuthTables
  import opened OAuth
  import opened OAuthAnswers
  import opened OAuthInvariant
  import opened OAuthMachine
  import opened OAuthRuns
  import opened Results

  /** The owner's approval of this transaction, with the configured secret. */
  predicate Approves(w: World, cfg: Config, step: Step, tr: Transaction) {
    step.ApproveCheck? && step.secret == cfg.approvalSecret && PendingAt(w.server, step.id, step.now)
    && w.server.transactions[step.id] == tr
  }

  /** An approval goes on to its insertion exactly with the configured secret, for a pending
      transaction of an enabled client; a wrong secret ends it. */
  lemma ApprovalFliesExactly(w: World, cfg: Config, step: Step)
    requires Fits(w.flight, step) && step.ApproveCheck?
    ensures var after := Apply(w, cfg, step);
            && (after.flight.Granting? <==>
                  && PendingAt(w.server, step.id, step.now) && step.secret == cfg.approvalSecret
                  && var tr := w.server.transactions[step.id];
                  && EnabledFor(w.server.tables, tr.client, cfg.owner) && ScopesFit(tr.scopes, cfg.scopes)
                  && cfg.grantTtl > 0)
            && (after.flight.Granting? ==>
                  after.flight == Granting(step.id, w.server.transactions[step.id], step.at))
            && (!after.flight.Granting? ==> after.flight.Idle?)
            && after.server.tables == w.server.tables && step.id !in after.server.transactions
  {
  }

  lemma OnlyApprovalsFly(w: World, cfg: Config, step: Step)
    requires Fits(w.flight, step) && Apply(w, cfg, step).flight.Granting?
    ensures var tr := Apply(w, cfg, step).flight.transaction;
            Approves(w, cfg, step, tr) || (w.flight.Granting? && w.flight.transaction == tr)
  {
    hide Cleanup, Perform;
    if step.ApproveCheck? {
      ApprovalFliesExactly(w, cfg, step);
    }
  }

  /** Some approval earlier in the run ordered this transaction. */
  ghost predicate Ordered(worlds: seq<World>, steps: seq<Step>, cfg: Config, j: nat, tr: Transaction)
    requires j <= |steps| < |worlds|
  {
    exists i :: 0 <= i < j && Approves(worlds[i], cfg, steps[i], tr)
  }

  lemma OrderedLater(worlds: seq<World>, steps: seq<Step>, cfg: Config, i: nat, j: nat, tr: Transaction)
    requires i <= j <= |steps| < |worlds| && Ordered(worlds, steps, cfg, i, tr)
    ensures Ordered(worlds, steps, cfg, j, tr)
  {
  }

  lemma {:induction false} FlightOrdered(worlds: seq<World>, steps: seq<Step>, cfg: Config, j: nat)
    requires Run(worlds, steps, cfg) && !worlds[0].flight.Granting? && j <= |steps| && worlds[j].flight.Granting?
    ensures Ordered(worlds, steps, cfg, j, worlds[j].flight.transaction)
  {
    hide Apply, Enabled, WorldInv, Approves;
    var i := j - 1;
    assert StepAt(worlds, steps, cfg, i);
    EnabledFits(worlds[i], cfg, steps[i]);
    OnlyApprovalsFly(worlds[i], cfg, steps[i]);
    if !Approves(worlds[i], cfg, steps[i], worlds[j].flight.transaction) {
      FlightOrdered(worlds, steps, cfg, i);
      OrderedLater(worlds, steps, cfg, i, j, worlds[j].flight.transaction);
    }
  }

  lemma EnabledFits(w: World, cfg: Config, step: Step)
    requires Enabled(w, cfg, step)
    ensures Fits(w.flight, step)
  {
  }

  // ---------- codes and grants ----------

  predicate Quiet(step: Step) { !step.IssueStep? && !step.CodeInsert? && !step.ResumeWrite? && !step.ApproveWrite? }

  /** Tokens leave transactions and codes as they are. */
  lemma TokensOnly(s: Server, cfg: Config, flight: Flight, step: Step)
    requires Fits(flight, step) && (step.IssueStep? || step.CodeInsert?)
    ensures var t := ServePart(s, cfg, flight, step).0; t.transactions == s.transactions && t.codes == s.codes
  {
    hide WriteFamily;
  }

  lemma RegistrationMemory(s: Server, cfg: Config, flight: Flight, step: Step)
    requires Fits(flight, step) && step.ResumeWrite?
    ensures var t, req := ServePart(s, cfg, flight, step).0, flight.request;
            && t.codes == s.codes
            && forall k | k in t.transactions ::
                 || (k in s.transactions && t.transactions[k] == s.transactions[k])
                 || (StoredAs(t.tables, req.client, cfg.owner, req.redirect)
                     && t.transactions[k].client == req.client && t.transactions[k].redirect == req.redirect)
  {
    hide WriteClient, ParseScope;
    var req := flight.request;
    WritesClientExactly(s.tables, req.client, cfg.owner, req.redirect, flight.registeredAt);
    var (tables, client) := WriteClient(s.tables, req.client, cfg.owner, req.redirect, flight.registeredAt);
    var t := ServePart(s, cfg, flight, step).0;
    assert t.tables == tables && (client.Err? ==> t.transactions == s.transactions);
    forall k | k in t.transactions && k != step.id
      ensures k in s.transactions && t.transactions[k] == s.transactions[k] {}
  }

  lemma ApprovalMemory(s: Server, cfg: Config, flight: Flight, step: Step)
    requires Fits(flight, step) && step.ApproveWrite?
    ensures var t := ServePart(s, cfg, flight, step).0;
            && t.transactions == s.transactions
            && forall k | k in t.codes ::
                 (k in s.codes && t.codes[k] == s.codes[k]) || t.codes[k].transaction == flight.transaction
  {
    hide WriteGrant;
  }

  lemma QuietMemory(s: Server, t: Server)
    requires ServerAdds(s, t, [])
    ensures forall k | k in t.codes :: k in s.codes && t.codes[k] == s.codes[k]
    ensures forall k | k in t.transactions :: k in s.transactions && t.transactions[k] == s.transactions[k]
  {
  }

  /** A code is written by the second part of an approval only, for its transaction. */
  lemma CodesAdded(w: World, cfg: Config, step: Step, k: string)
    requires Fits(w.flight, step) && k in Apply(w, cfg, step).server.codes
    ensures var code := Apply(w, cfg, step).server.codes[k];
            || (k in w.server.codes && code == w.server.codes[k])
            || (w.flight.Granting? && code.transaction == w.flight.transaction)
  {
    hide ServePart, ServerAdds;
    if Quiet(step) {
      ServePartQuietly(w.server, cfg, w.flight, step);
      QuietMemory(w.server, ServePart(w.server, cfg, w.flight, step).0);
    } else if step.ResumeWrite? {
      RegistrationMemory(w.server, cfg, w.flight, step);
    } else if step.ApproveWrite? {
      ApprovalMemory(w.server, cfg, w.flight, step);
    } else {
      TokensOnly(w.server, cfg, w.flight, step);
    }
  }

  /** What a grant says of the transaction it was given for. */
  predicate GivenFor(g: Grant, cfg: Config, tr: Transaction) {
    g.owner == cfg.owner && g.client == tr.client && g.resource == tr.resource && g.scopes == tr.scopes
  }

  predicate SameGrant(a: Grant, b: Grant) {
    a.owner == b.owner && a.client == b.client && a.resource == b.resource && a.scopes == b.scopes
  }

  /** No grant is new, and none is bound otherwise. */
  ghost predicate GrantsStay(s: Tables, t: Tables) {
    forall g | g in t.grants :: g in s.grants && SameGrant(s.grants[g], t.grants[g])
  }

  lemma CallGrants(t: Tables, call: Call)
    ensures GrantsStay(t, Perform(t, call))
  {
  }

  lemma ReadGrants(t: Tables, id: GrantId, now: int)
    ensures GrantsStay(t, GetGrant(t, id, now).0)
  {
  }

  lemma RevokeGrants(s: Server, token: string, client: Option<ClientId>, at: int)
    ensures RevokeEither(s, token, client, at).tables.grants == s.tables.grants
  {
  }

  lemma FamilyReadGrants(t: Tables, id: FamilyId, now: int)
    ensures GetTokenFamily(t, id, now).0.grants == t.grants
  {
  }

  lemma RotateGrants(t: Tables, token: RefreshToken, next: RefreshToken, client: ClientId, resource: string, now: int)
    ensures Rotate(t, token, next, client, resource, now).0.grants == t.grants
  {
  }

  lemma ClientGrants(t: Tables, client: ClientId, owner: OwnerId, redirect: string, at: int)
    ensures WriteClient(t, client, owner, redirect, at).0.grants == t.grants
  {
  }

  lemma FirstPartGrants(s: Server, cfg: Config, flight: Flight, step: Step)
    requires Fits(flight, step)
    requires step.ApproveCheck? || step.CodeRead? || step.RefreshStep? || step.BearerRead? || step.RevokeStep?
    ensures GrantsStay(s.tables, ServePart(s, cfg, flight, step).0.tables)
  {
    hide GetGrant, Rotate, RevokeEither, Cleanup, GrantRefusal, GrantsStay;
    var t, clean := s.tables, Cleanup(s, step.now);
    CleansExactly(s, step.now);
    SameGrants(t, t);
    match step {
      case CodeRead(req, now, readAt) =>
        if req.code in clean.codes {
          ReadGrants(t, clean.codes[req.code].grant, readAt);
        }
      case BearerRead(token, now, checkedAt, grantAt) =>
        if token in clean.tokens {
          ReadGrants(t, clean.tokens[token].grant, grantAt);
        }
      case RefreshStep(req, next, now, readAt) =>
        RotateGrants(t, req.token, next, req.client, req.resource, readAt);
        SameGrants(t, Rotate(t, req.token, next, req.client, req.resource, readAt).0);
      case RevokeStep(token, from, now, at) =>
        RevokeGrants(clean, token, from, at);
        SameGrants(t, RevokeEither(clean, token, from, at).tables);
      case _ =>
    }
  }

  lemma SameGrants(s: Tables, t: Tables)
    requires t.grants == s.grants
    ensures GrantsStay(s, t)
  {
  }

  lemma LaterPartGrants(s: Server, cfg: Config, flight: Flight, step: Step)
    requires Fits(flight, step) && !step.ApproveWrite?
    requires !step.ApproveCheck? && !step.CodeRead? && !step.RefreshStep? && !step.BearerRead? && !step.RevokeStep?
    ensures GrantsStay(s.tables, ServePart(s, cfg, flight, step).0.tables)
  {
    hide GetGrant, GetTokenFamily, WriteClient, Perform, GrantsStay, ParseScope, GenerationTaken;
    var t, u := s.tables, ServePart(s, cfg, flight, step).0.tables;
    SameGrants(t, t);
    match step {
      case Command(call) => CallGrants(t, call);
      case EnrollWrite => ClientGrants(t, flight.client, cfg.owner, flight.redirect, flight.at); SameGrants(t, u);
      case ResumeWrite(_, _) =>
        ClientGrants(t, flight.request.client, cfg.owner, flight.request.redirect, flight.registeredAt);
        SameGrants(t, u);
      case CodeCheck(at) => ReadGrants(t, flight.grant, at);
      case CodeInsert(_) => SameGrants(t, u);
      case IssueStep(access, at) => IssueAdds(s, cfg, flight, access, at);
      case BearerCheck(familyAt) => FamilyReadGrants(t, flight.access.family, familyAt); SameGrants(t, u);
      case _ =>
    }
  }

  lemma ApprovalGrants(s: Server, cfg: Config, flight: Flight, step: Step, g: GrantId)
    requires Fits(flight, step) && step.ApproveWrite? && g in ServePart(s, cfg, flight, step).0.tables.grants
    ensures var grant := ServePart(s, cfg, flight, step).0.tables.grants[g];
            (g in s.tables.grants && grant == s.tables.grants[g]) || GivenFor(grant, cfg, flight.transaction)
  {
  }

  /** A grant is stored by the second part of an approval only, for its transaction. */
  lemma GrantsAdded(w: World, cfg: Config, step: Step, g: GrantId)
    requires Fits(w.flight, step) && g in Apply(w, cfg, step).server.tables.grants
    ensures var grant := Apply(w, cfg, step).server.tables.grants[g];
            || (g in w.server.tables.grants && SameGrant(w.server.tables.grants[g], grant))
            || (w.flight.Granting? && GivenFor(grant, cfg, w.flight.transaction))
  {
    hide ServePart;
    if step.ApproveWrite? {
      ApprovalGrants(w.server, cfg, w.flight, step, g);
    } else if step.ApproveCheck? || step.CodeRead? || step.RefreshStep? || step.BearerRead? || step.RevokeStep? {
      FirstPartGrants(w.server, cfg, w.flight, step);
    } else {
      LaterPartGrants(w.server, cfg, w.flight, step);
    }
  }

  /** Every code of a run was ordered with the configured secret. */
  lemma {:induction false} CodesOrdered(worlds: seq<World>, steps: seq<Step>, cfg: Config, j: nat, k: string)
    requires Run(worlds, steps, cfg) && !worlds[0].flight.Granting? && worlds[0].server.codes == map[]
    requires j <= |steps| && k in worlds[j].server.codes
    ensures Ordered(worlds, steps, cfg, j, worlds[j].server.codes[k].transaction)
  {
    hide Apply, Enabled, WorldInv, Approves;
    var i := j - 1;
    assert StepAt(worlds, steps, cfg, i);
    EnabledFits(worlds[i], cfg, steps[i]);
    CodesAdded(worlds[i], cfg, steps[i], k);
    var tr := worlds[j].server.codes[k].transaction;
    if k in worlds[i].server.codes && worlds[i].server.codes[k].transaction == tr {
      CodesOrdered(worlds, steps, cfg, i, k);
    } else {
      FlightOrdered(worlds, steps, cfg, i);
    }
    OrderedLater(worlds, steps, cfg, i, j, tr);
  }

  /** Every grant of a run was ordered with the configured secret, by the approval of a
      transaction that asked for just this. */
  lemma {:induction false} GrantsOrdered(worlds: seq<World>, steps: seq<Step>, cfg: Config, j: nat, g: GrantId)
    returns (tr: Transaction)
    requires Run(worlds, steps, cfg) && !worlds[0].flight.Granting? && worlds[0].server.tables.grants == map[]
    requires j <= |steps| && g in worlds[j].server.tables.grants
    ensures Ordered(worlds, steps, cfg, j, tr) && GivenFor(worlds[j].server.tables.grants[g], cfg, tr)
  {
    hide Apply, Enabled, WorldInv, Approves;
    var i := j - 1;
    assert StepAt(worlds, steps, cfg, i);
    EnabledFits(worlds[i], cfg, steps[i]);
    GrantsAdded(worlds[i], cfg, steps[i], g);
    if w: World :| w == worlds[i] && g in w.server.tables.grants
                   && SameGrant(w.server.tables.grants[g], worlds[j].server.tables.grants[g]) {
      tr := GrantsOrdered(worlds, steps, cfg, i, g);
    } else {
      tr := worlds[i].flight.transaction;
      FlightOrdered(worlds, steps, cfg, i);
    }
    OrderedLater(worlds, steps, cfg, i, j, tr);
  }

  /** So is every bearer and every refresh token: from a new installation, nothing that opens
      the server exists without an approval that carried the configured secret. */
  lemma NothingWithoutSecret(worlds: seq<World>, steps: seq<Step>, cfg: Config, j: nat)
    requires Run(worlds, steps, cfg) && worlds[0] == Installed() && j <= |steps|
    requires var s := worlds[j].server;
             s.codes != map[] || s.tokens != map[] || s.tables.tokens != map[] || s.tables.grants != map[]
    ensures exists i :: 0 <= i < j && steps[i].ApproveCheck? && steps[i].secret == cfg.approvalSecret
  {
    hide Apply, Enabled, WorldInv;
    var s := worlds[j].server;
    if k :| k in s.codes {
      CodesOrdered(worlds, steps, cfg, j, k);
    } else {
      RunKeepsInv(worlds, steps, cfg, j);
      SomeGrant(worlds[j], cfg);
      var g :| g in s.tables.grants;
      var tr := GrantsOrdered(worlds, steps, cfg, j, g);
    }
  }

  lemma SomeGrant(w: World, cfg: Config)
    requires WorldInv(w, cfg)
    requires w.server.tokens != map[] || w.server.tables.tokens != map[] || w.server.tables.grants != map[]
    ensures exists g :: g in w.server.tables.grants
  {
    if k :| k in w.server.tokens {
      assert AccessInv(w.server.tables, w.server.tokens[k]);
    } else if d :| d in w.server.tables.tokens {
      assert TokenInv(w.server.tables, d);
      assert FamilyInv(w.server.tables, w.server.tables.tokens[d].family);
    } else {
      var g :| g in w.server.tables.grants;
    }
  }

  // ---------- redirects ----------

  predicate Redirected(t: Tables, cfg: Config, tr: Transaction) { StoredAs(t, tr.client, cfg.owner, tr.redirect) }

  /** Every transaction and every code is for the redirect under which its client is stored. */
  ghost predicate AllRedirected(w: World, cfg: Config) {
    && (forall k | k in w.server.transactions :: Redirected(w.server.tables, cfg, w.server.transactions[k]))
    && (forall k | k in w.server.codes :: Redirected(w.server.tables, cfg, w.server.codes[k].transaction))
    && (w.flight.Granting? ==> Redirected(w.server.tables, cfg, w.flight.transaction))
  }

  lemma RedirectStays(s: Tables, t: Tables, cfg: Config, tr: Transaction)
    requires Redirected(s, cfg, tr) && Evolves(s, t)
    ensures Redirected(t, cfg, tr)
  {
    assert ClientEvolves(s.clients[tr.client], t.clients[tr.client]);
  }

  /** A transaction is opened by the second part of a registration only, and then its client is
      stored with its redirect. */
  lemma TransactionsAdded(w: World, cfg: Config, step: Step, k: string)
    requires Fits(w.flight, step) && k in Apply(w, cfg, step).server.transactions
    ensures var tr := Apply(w, cfg, step).server.transactions[k];
            || (k in w.server.transactions && tr == w.server.transactions[k])
            || Redirected(Apply(w, cfg, step).server.tables, cfg, tr)
  {
    hide ServePart, ServerAdds;
    if Quiet(step) {
      ServePartQuietly(w.server, cfg, w.flight, step);
      QuietMemory(w.server, ServePart(w.server, cfg, w.flight, step).0);
    } else if step.ResumeWrite? {
      RegistrationMemory(w.server, cfg, w.flight, step);
    } else if step.ApproveWrite? {
      ApprovalMemory(w.server, cfg, w.flight, step);
    } else {
      TokensOnly(w.server, cfg, w.flight, step);
    }
  }

  lemma StepKeepsRedirects(w: World, cfg: Config, step: Step)
    requires WorldInv(w, cfg) && Enabled(w, cfg, step) && AllRedirected(w, cfg)
    ensures AllRedirected(Apply(w, cfg, step), cfg)
  {
    hide WorldInv, Enabled, Apply, Evolves, Redirected;
    EnabledFits(w, cfg, step);
    var v := Apply(w, cfg, step);
    StepKeepsInv(w, cfg, step);
    forall k | k in v.server.transactions ensures Redirected(v.server.tables, cfg, v.server.transactions[k]) {
      TransactionsAdded(w, cfg, step, k);
      if k in w.server.transactions && v.server.transactions[k] == w.server.transactions[k] {
        RedirectStays(w.server.tables, v.server.tables, cfg, w.server.transactions[k]);
      }
    }
    forall k | k in v.server.codes ensures Redirected(v.server.tables, cfg, v.server.codes[k].transaction) {
      CodesAdded(w, cfg, step, k);
      RedirectStays(w.server.tables, v.server.tables, cfg, v.server.codes[k].transaction);
    }
    if v.flight.Granting? {
      OnlyApprovalsFly(w, cfg, step);
      RedirectStays(w.server.tables, v.server.tables, cfg, v.flight.transaction);
    }
  }

  lemma {:induction false} RunKeepsRedirects(worlds: seq<World>, steps: seq<Step>, cfg: Config, j: nat)
    requires Run(worlds, steps, cfg) && AllRedirected(worlds[0], cfg) && j <= |steps|
    ensures AllRedirected(worlds[j], cfg)
  {
    hide WorldInv, Enabled, Apply, AllRedirected;
    if j > 0 {
      RunKeepsRedirects(worlds, steps, cfg, j - 1);
      RunKeepsInv(worlds, steps, cfg, j - 1);
      assert StepAt(worlds, steps, cfg, j - 1);
      StepKeepsRedirects(worlds[j - 1], cfg, steps[j - 1]);
    }
  }

  /** In any run from a new installation, a code is redeemed only by the client it was written
      for, with the redirect under which that client is stored. */
  lemma RedeemedRedirect(worlds: seq<World>, steps: seq<Step>, cfg: Config, j: nat)
    requires Run(worlds, steps, cfg) && worlds[0] == Installed() && j < |steps|
    requires steps[j].CodeRead? && worlds[j + 1].flight.Redeeming?
    ensures var req := steps[j].codeRequest;
            && req.code in worlds[j].server.codes && req.client == worlds[j].server.codes[req.code].transaction.client
            && StoredAs(worlds[j].server.tables, req.client, cfg.owner, req.redirect)
  {
    hide WorldInv;
    RunKeepsRedirects(worlds, steps, cfg, j);
    assert StepAt(worlds, steps, cfg, j);
    RedeemsMatching(worlds[j], cfg, steps[j]);
  }

  lemma RedeemsMatching(w: World, cfg: Config, step: Step)
    requires Fits(w.flight, step) && step.CodeRead? && Apply(w, cfg, step).flight.Redeeming?
    ensures var req := step.codeRequest;
            req.code in w.server.codes && CodeMatches(w.server.codes[req.code].transaction, req)
  {
    hide GetGrant;
  }
}
