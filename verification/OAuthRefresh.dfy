/** A refresh whose rotation and issuing are commits of their own: exactly when it is refused
    although it has rotated, with the owner's commands in between. */
module OAuthRefresh {
  import opened AuthInvariant
  import opened AuthTables
  import opened OAuth
  import opened OAuthEndpoints
  import opened OAuthInvariant
  import opened OAuthMachine
  import opened OAuthRuns
  import opened Results

  /** The first part of a refresh goes on to its end exactly if it has rotated. */
  lemma RotationFlies(w: World, cfg: Config, step: Step)
    requires WorldInv(w, cfg) && Fits(w.flight, step) && step.RefreshStep?
    ensures var req, t, after := step.refreshRequest, w.server.tables, Apply(w, cfg, step);
            && (after.flight.Rotating? <==>
                  req.resource == cfg.resource
                  && Rotatable(t, req.token, step.next, req.client, req.resource, step.readAt))
            && (after.flight.Rotating? ==>
                  && var f := t.tokens[req.token].family;
                  && after.flight == Rotating(f, step.next, req.scope)
                  && Consumed(after.server.tables, req.token) && !Dead(after.server.tables, f)
                  && f in after.server.tables.families
                  && after.server.tables.families[f].grant == t.families[f].grant
                  && after.server.tables.grants == t.grants)
  {
    hide Inv, AccessInv, Cleanup;
    var req, t := step.refreshRequest, w.server.tables;
    var clean := Cleanup(w.server, step.now);
    CleanupTables(w.server, step.now);
    RotatesExactly(t, cfg.scopes, req.token, step.next, req.client, req.resource, step.readAt);
    if Rotate(t, req.token, step.next, req.client, req.resource, step.readAt).1.Ok? {
      RotatedRows(t, req.token, step.next, req.client, req.resource, step.readAt);
      RotationConsumesExactly(t, req.token, step.next, req.client, req.resource, step.readAt);
    }
  }

  lemma CleanupTables(s: Server, now: int)
    ensures Cleanup(s, now).tables == s.tables
  {
  }

  /** The end of a refresh succeeds exactly if the family is not dead by then and its grant
      can be issued for. */
  lemma IssuesExactly(w: World, cfg: Config, access: string, at: int)
    requires WorldInv(w, cfg) && w.flight.Rotating?
    ensures var t, f := w.server.tables, w.flight.family;
            && f in t.families && t.families[f].grant in t.grants
            && (Answer(w, cfg, IssueStep(access, at)).Ok? <==>
                  !Dead(t, f) && Issuable(cfg, t.grants[t.families[f].grant], w.flight.scope, at))
  {
    hide Issuable, AccessAfterRotation;
    var t, f := w.server.tables, w.flight.family;
    assert FamilyInv(t, f);
    AnswersExactly(w.server, cfg, w.flight.scope, f, w.flight.next, access, at);
  }

  /** Only owner's commands commit between the two. */
  ghost predicate CommandsBetween(steps: seq<Step>, i: nat, j: nat)
    requires j <= |steps|
  {
    forall k | i < k < j :: steps[k].Command?
  }

  lemma CommandFlies(w: World, cfg: Config, step: Step)
    requires step.Command?
    ensures Apply(w, cfg, step).flight == w.flight
  {
  }

  lemma {:induction false} FlightKept(worlds: seq<World>, steps: seq<Step>, cfg: Config, i: nat, j: nat)
    requires Run(worlds, steps, cfg) && i < j <= |steps| && CommandsBetween(steps, i, j)
    ensures worlds[j].flight == worlds[i + 1].flight
  {
    hide WorldInv, Apply, Enabled;
    if i + 1 < j {
      FlightKept(worlds, steps, cfg, i, j - 1);
      assert StepAt(worlds, steps, cfg, j - 1);
      CommandFlies(worlds[j - 1], cfg, steps[j - 1]);
    }
  }

  /** The command that ended the family, or its grant. */
  ghost predicate Kills(worlds: seq<World>, k: nat, f: FamilyId)
    requires k + 1 < |worlds|
  {
    !Dead(worlds[k].server.tables, f) && Dead(worlds[k + 1].server.tables, f)
  }

  lemma {:induction false} Killer(worlds: seq<World>, i: nat, j: nat, f: FamilyId)
    requires i <= j < |worlds| && !Dead(worlds[i].server.tables, f) && Dead(worlds[j].server.tables, f)
    ensures exists k :: i <= k < j && Kills(worlds, k, f)
  {
    hide Dead;
    if Dead(worlds[j - 1].server.tables, f) {
      Killer(worlds, i, j - 1, f);
    } else {
      assert Kills(worlds, j - 1, f);
    }
  }

  lemma GrantKept(s: Tables, t: Tables, f: FamilyId)
    requires Evolves(s, t) && f in s.families && s.families[f].grant in s.grants
    ensures f in t.families && t.families[f].grant == s.families[f].grant && t.families[f].grant in t.grants
    ensures var g := s.families[f].grant;
            s.grants[g].scopes == t.grants[g].scopes && s.grants[g].expiresAt == t.grants[g].expiresAt
  {
    assert FamilyEvolves(s.families[f], t.families[f]);
    assert GrantEvolves(s.grants[s.families[f].grant], t.grants[s.families[f].grant]);
  }

  lemma IssuableKept(cfg: Config, g: Grant, h: Grant, scope: Option<seq<string>>, at: int)
    requires g.scopes == h.scopes && g.expiresAt == h.expiresAt
    ensures Issuable(cfg, g, scope, at) <==> Issuable(cfg, h, scope, at)
  {
  }

  /** In any run, a refresh that has gone on to its end has consumed the token presented, which
      could be rotated; and it is refused exactly if the scopes asked for are not the grant's,
      there is no time left, or a command in between has ended the family or the grant. */
  lemma FailsAfterRotatingInRun(worlds: seq<World>, steps: seq<Step>, cfg: Config, i: nat, j: nat)
    requires Run(worlds, steps, cfg) && i < j < |steps| && CommandsBetween(steps, i, j)
    requires steps[i].RefreshStep? && steps[j].IssueStep?
    ensures var req, t := steps[i].refreshRequest, worlds[i].server.tables;
            && req.resource == cfg.resource
            && Rotatable(t, req.token, steps[i].next, req.client, req.resource, steps[i].readAt)
            && Consumed(worlds[j].server.tables, req.token) && worlds[j].flight.Rotating?
            && (Answer(worlds[j], cfg, steps[j]).Err? <==>
                  || !Issuable(cfg, GrantOf(t, req.token), req.scope, steps[j].at)
                  || exists k :: i < k < j && Kills(worlds, k, t.tokens[req.token].family))
  {
    hide WorldInv, Apply, Enabled, Dead, Evolves, Rotatable, Issuable, Consumed, Rotate;
    var req, t := steps[i].refreshRequest, worlds[i].server.tables;
    assert StepAt(worlds, steps, cfg, i) && StepAt(worlds, steps, cfg, j);
    FlightKept(worlds, steps, cfg, i, j);
    IssueFits(worlds[j], cfg, steps[j]);
    RefreshFits(worlds[i], cfg, steps[i]);
    RunKeepsInv(worlds, steps, cfg, i);
    RunKeepsInv(worlds, steps, cfg, j);
    RotationFlies(worlds[i], cfg, steps[i]);
    RotatableThere(t, req.token, steps[i].next, req.client, req.resource, steps[i].readAt);
    var f := t.tokens[req.token].family;
    var u := worlds[i + 1].server.tables;
    RunEvolves(worlds, steps, cfg, i + 1, j);
    GrantKept(u, worlds[j].server.tables, f);
    ConsumedStays(u, worlds[j].server.tables, req.token);
    IssuesExactly(worlds[j], cfg, steps[j].access, steps[j].at);
    var grant := worlds[j].server.tables.grants[u.families[f].grant];
    IssuableKept(cfg, GrantOf(t, req.token), grant, req.scope, steps[j].at);
    if Dead(worlds[j].server.tables, f) {
      Killer(worlds, i + 1, j, f);
    }
    if k :| i < k < j && Kills(worlds, k, f) {
      RunEvolves(worlds, steps, cfg, k + 1, j);
      DeadStays(worlds[k + 1].server.tables, worlds[j].server.tables, f);
    }
  }

  lemma RotatableThere(t: Tables, token: RefreshToken, next: RefreshToken, client: ClientId, resource: string, now: int)
    requires Rotatable(t, token, next, client, resource, now)
    ensures token in t.tokens && t.tokens[token].family in t.families
    ensures t.families[t.tokens[token].family].grant in t.grants
  {
  }

  lemma IssueFits(w: World, cfg: Config, step: Step)
    requires Enabled(w, cfg, step) && step.IssueStep?
    ensures w.flight.Rotating?
  {
  }

  lemma RefreshFits(w: World, cfg: Config, step: Step)
    requires Enabled(w, cfg, step) && step.RefreshStep?
    ensures Fits(w.flight, step)
  {
  }
}
