/** The authorization server as it runs beside the owner's commands: each commit is a step,
    a request of the server may be suspended between two of its commits, and commands of
    another process on the same tables may commit at any point. */
module OAuthMachine {
  import opened AuthInvariant
  import opened AuthTables
  import opened OAuth
  import opened OAuthInvariant
  import opened Results

  /** What the owner's processes commit. The checks of a consumption were made on an earlier
      reading; those of the others are on columns that never change. */
  datatype Call =
    | Bootstrap(owner: OwnerId, secret: string, at: int, expiresAt: int)
    | Consume(owner: OwnerId, at: int)
    | EndGrant(grant: GrantId, owner: OwnerId, at: int, reason: string)
    | EndAccess(owner: OwnerId, at: int, reason: string)
    | Reset(owner: OwnerId, secret: string, at: int, expiresAt: int)

  function Perform(t: Tables, call: Call): Tables {
    match call
    case Bootstrap(owner, secret, at, expiresAt) => CreateOwnerBootstrap(t, owner, secret, at, expiresAt).0
    case Consume(owner, at) => WriteConsumed(t, owner, at).0
    case EndGrant(grant, owner, at, reason) => RevokeGrant(t, grant, owner, at, reason).0
    case EndAccess(owner, at, reason) => RevokeOwnerAccess(t, owner, at, reason).0
    case Reset(owner, secret, at, expiresAt) => ResetOwnerAccess(t, owner, secret, at, expiresAt).0
  }

  /** What the one request that is under way holds between two of its commits. */
  datatype Flight =
    | Idle
    | Enrolling(client: ClientId, redirect: string, at: int) // the owner was found paired
    | Registering(request: AuthorizationRequest, registeredAt: int) // the owner was found paired
    | Granting(id: string, transaction: Transaction, grantedAt: int) // the client was found enabled
    | Redeeming(code: string, grant: GrantId, row: Grant) // the grant was found active
    | Inserting(code: string, grant: GrantId, row: Grant, insertedAt: int) // and once more
    | Rotating(family: FamilyId, next: RefreshToken, scope: Option<seq<string>>) // rotation committed
    | Checking(token: string, access: Access) // the bearer's grant was found active

  datatype Step =
    | Command(call: Call)
    | BeginStep(request: AuthorizationRequest, now: int)
    | EnrollCheck(client: ClientId, redirect: string, at: int)
    | EnrollWrite
    | ResumeCheck(request: AuthorizationRequest, registeredAt: int)
    | ResumeWrite(id: string, now: int)
    | ApproveCheck(id: string, secret: string, now: int, at: int)
    | ApproveWrite(grant: GrantId, code: string)
    | CodeRead(codeRequest: CodeRequest, now: int, readAt: int)
    | CodeCheck(at: int)
    | CodeInsert(ids: Fresh)
    | RefreshStep(refreshRequest: RefreshRequest, next: RefreshToken, now: int, readAt: int)
    | IssueStep(access: string, at: int)
    | RevokeStep(token: string, from: Option<ClientId>, now: int, at: int)
    | BearerRead(token: string, now: int, checkedAt: int, grantAt: int)
    | BearerCheck(familyAt: int)
    | Restart

  /** `drawn` holds every random identifier ever drawn. */
  datatype World = World(server: Server, flight: Flight, drawn: set<string>)

  /** A request goes on from where it is, and a new one begins when none is under way. */
  predicate Fits(flight: Flight, step: Step) {
    match step
    case Command(_) => true
    case Restart => true
    case EnrollWrite => flight.Enrolling?
    case ResumeWrite(_, _) => flight.Registering?
    case ApproveWrite(_, _) => flight.Granting?
    case CodeCheck(_) => flight.Redeeming?
    case CodeInsert(_) => flight.Inserting?
    case IssueStep(_, _) => flight.Rotating?
    case BearerCheck(_) => flight.Checking?
    case _ => flight.Idle?
  }

  function Draws(step: Step): seq<string> {
    match step
    case ResumeWrite(id, _) => [id]
    case ApproveWrite(_, code) => [code]
    case CodeInsert(ids) => [ids.refresh, ids.access]
    case RefreshStep(_, next, _, _) => [next]
    case IssueStep(access, _) => [access]
    case _ => []
  }

  /** Random identifiers do not repeat, nor hit a token presented before they are drawn;
      a request resumes only past its checks. */
  predicate Enabled(w: World, cfg: Config, step: Step) {
    && Fits(w.flight, step)
    && (forall i | 0 <= i < |Draws(step)| :: Draws(step)[i] !in w.drawn)
    && (forall i, j | 0 <= i < j < |Draws(step)| :: Draws(step)[i] != Draws(step)[j])
    && (step.RefreshStep? ==> step.next != step.refreshRequest.token)
    && (step.ResumeCheck? ==> CheckRequest(cfg, step.request).Ok?)
  }

  /** The last part of a refresh; family and grant are never missing. */
  function Issue(s: Server, cfg: Config, flight: Flight, access: string, at: int)
    : (Server, Result<TokenResponse, OAuthError>)
    requires flight.Rotating?
  {
    if flight.family in s.tables.families && s.tables.families[flight.family].grant in s.tables.grants
    then AccessAfterRotation(s, cfg, flight.scope, flight.family, flight.next, access, at)
    else (s, Err(GrantRefused))
  }

  function ServePart(s: Server, cfg: Config, flight: Flight, step: Step): (Server, Flight)
    requires Fits(flight, step)
  {
    match step
    case Command(call) => (s.(tables := Perform(s.tables, call)), flight)
    case BeginStep(request, now) => (Begin(s, cfg, request, now).0, Idle)
    case EnrollCheck(client, redirect, at) =>
      (s, if Paired(s.tables, cfg.owner) then Enrolling(client, redirect, at) else Idle)
    case EnrollWrite =>
      (s.(tables := WriteClient(s.tables, flight.client, cfg.owner, flight.redirect, flight.at).0), Idle)
    case ResumeCheck(request, at) => (s, if Paired(s.tables, cfg.owner) then Registering(request, at) else Idle)
    case ResumeWrite(id, now) => (AddTransaction(s, cfg, flight.request, id, flight.registeredAt, now).0, Idle)
    case ApproveCheck(id, secret, now, at) =>
      var (after, t) := TakeTransaction(Cleanup(s, now), cfg, id, secret, at);
      (after, if t.Ok? then Granting(id, t.value, at) else Idle)
    case ApproveWrite(grant, code) => (AddCode(s, cfg, flight.transaction, grant, code, flight.grantedAt).0, Idle)
    case CodeRead(req, now, readAt) =>
      var (after, g) := TakeCode(Cleanup(s, now), cfg, req, readAt);
      (after, if g.Ok? then Redeeming(req.code, g.value.0, g.value.1) else Idle)
    case CodeCheck(at) =>
      var (after, ok) := RecheckGrant(s, cfg, flight.grant, flight.row, at);
      (after, if ok then Inserting(flight.code, flight.grant, flight.row, at) else Idle)
    case CodeInsert(ids) => (AddFamily(s, cfg, flight.grant, flight.row, ids, flight.insertedAt).0, Idle)
    case RefreshStep(req, next, now, readAt) =>
      var (after, id) := RotateFor(Cleanup(s, now), cfg, req, next, readAt);
      (after, if id.Ok? then Rotating(id.value, next, req.scope) else Idle)
    case IssueStep(access, at) => (Issue(s, cfg, flight, access, at).0, Idle)
    case RevokeStep(token, client, now, at) => (Revoke(s, token, client, now, at), Idle)
    case BearerRead(token, now, checkedAt, grantAt) =>
      var (after, a) := ReadBearer(Cleanup(s, now), cfg, token, checkedAt, grantAt);
      (after, if a.Some? then Checking(token, a.value) else Idle)
    case BearerCheck(familyAt) => (CheckFamily(s, flight.access, familyAt).0, Idle)
    case Restart => (Server(s.tables, map[], map[], map[]), Idle)
  }

  function Apply(w: World, cfg: Config, step: Step): World
    requires Fits(w.flight, step)
  {
    var (server, flight) := ServePart(w.server, cfg, w.flight, step);
    World(server, flight, w.drawn + set x | x in Draws(step))
  }

  // ---------- what a request under way can rely on ----------

  ghost predicate FlightInv(s: Server, cfg: Config, flight: Flight, drawn: set<string>) {
    match flight
    case Idle => true
    case Enrolling(_, _, _) => cfg.owner in s.tables.owners
    case Registering(_, _) => cfg.owner in s.tables.owners
    case Granting(id, t, at) =>
      id in drawn && id !in s.transactions && GrantFits(s.tables, cfg.scopes, NewGrant(cfg, t, at))
    case Redeeming(code, g, row) => code in drawn && code !in s.codes && ReadOf(s.tables, g, row)
    case Inserting(code, g, row, at) =>
      code in drawn && code !in s.codes && ReadOf(s.tables, g, row) && FamilyFits(s.tables, FamilyRow(cfg, g, row, at))
    case Rotating(f, _, _) => f in s.tables.families
    case Checking(token, a) => token in s.tokens && s.tokens[token] == a && Severed(s.tables, a)
  }

  /** A bearer whose grant was found active: when the grant has been ended since, so has
      the family. */
  ghost predicate Severed(t: Tables, a: Access) {
    a.grant in t.grants && a.family in t.families
    && (t.grants[a.grant].status != GrantActive ==> t.families[a.family].status != FamilyActive)
  }

  ghost predicate WorldInv(w: World, cfg: Config) {
    && ServerInv(w.server, cfg) && FlightInv(w.server, cfg, w.flight, w.drawn)
    && w.server.transactions.Keys <= w.drawn && w.server.codes.Keys <= w.drawn && w.server.tokens.Keys <= w.drawn
  }

  function Installed(): World {
    World(Server(Tables(map[], map[], map[], map[], map[]), map[], map[], map[]), Idle, {})
  }

  lemma FreshInstallation(cfg: Config)
    ensures WorldInv(Installed(), cfg)
  {
  }

  lemma PerformSafe(t: Tables, supported: set<string>, call: Call)
    ensures Safe(t, Perform(t, call), supported)
  {
    match call
    case Bootstrap(owner, secret, at, expiresAt) => BootstrapSafe(t, supported, owner, secret, at, expiresAt);
    case Consume(owner, at) => BootstrapSafe(t, supported, owner, "", at, at);
    case EndGrant(grant, owner, at, reason) => RevokeGrantSafe(t, supported, grant, owner, at, reason);
    case EndAccess(owner, at, reason) =>
      EvolvesReflexive(t);
      EndOwnerSafe(t, supported, owner, FamilyRevoked, at, reason);
    case Reset(owner, secret, at, expiresAt) => ResetSafe(t, supported, owner, secret, at, expiresAt);
  }

  lemma FirstPartSafe(s: Server, cfg: Config, flight: Flight, step: Step)
    requires Fits(flight, step)
    requires step.ApproveCheck? || step.CodeRead? || step.RefreshStep? || step.BearerRead?
    ensures ServerSafe(s, cfg, ServePart(s, cfg, flight, step).0)
  {
    hide ServerInv, Inv, Evolves, AccessInv;
    var clean := Cleanup(s, step.now);
    CleanupSafe(s, cfg, step.now);
    match step {
      case ApproveCheck(id, secret, now, at) => TakeTransactionSafe(clean, cfg, id, secret, at);
      case CodeRead(req, now, readAt) => TakeCodeSafe(clean, cfg, req, readAt);
      case RefreshStep(req, next, now, readAt) => RotateForSafe(clean, cfg, req, next, readAt);
      case BearerRead(token, now, checkedAt, grantAt) => ReadBearerSafe(clean, cfg, token, checkedAt, grantAt);
    }
    SafeThen(s, cfg, clean, ServePart(s, cfg, flight, step).0);
  }

  lemma LaterPartSafe(s: Server, cfg: Config, flight: Flight, drawn: set<string>, step: Step)
    requires Fits(flight, step) && FlightInv(s, cfg, flight, drawn)
    requires step.EnrollWrite? || step.ResumeWrite? || step.ApproveWrite? || step.CodeCheck? || step.CodeInsert?
             || step.IssueStep? || step.BearerCheck?
    ensures ServerSafe(s, cfg, ServePart(s, cfg, flight, step).0)
  {
    hide ServerInv, Inv, Evolves, AccessInv;
    match step
    case EnrollWrite =>
      WriteClientSafe(s.tables, cfg.scopes, flight.client, cfg.owner, flight.redirect, flight.at);
      TablesStep(s, cfg, WriteClient(s.tables, flight.client, cfg.owner, flight.redirect, flight.at).0);
    case ResumeWrite(id, now) => AddTransactionSafe(s, cfg, flight.request, id, flight.registeredAt, now);
    case ApproveWrite(grant, code) => AddCodeSafe(s, cfg, flight.transaction, grant, code, flight.grantedAt);
    case CodeCheck(at) => RecheckSafe(s, cfg, flight.grant, flight.row, at);
    case CodeInsert(ids) => AddFamilySafe(s, cfg, flight.grant, flight.row, ids, flight.insertedAt);
    case IssueStep(access, at) => IssuePartSafe(s, cfg, flight, access, at);
    case BearerCheck(familyAt) => CheckFamilySafe(s, cfg, flight.access, familyAt);
  }

  lemma IssuePartSafe(s: Server, cfg: Config, flight: Flight, access: string, at: int)
    requires flight.Rotating?
    ensures ServerSafe(s, cfg, Issue(s, cfg, flight, access, at).0)
  {
    if flight.family in s.tables.families && s.tables.families[flight.family].grant in s.tables.grants {
      AfterRotationSafe(s, cfg, flight.scope, flight.family, flight.next, access, at);
    } else {
      DropSafe(s, cfg, s);
    }
  }

  lemma ServeSafe(s: Server, cfg: Config, flight: Flight, drawn: set<string>, step: Step)
    requires Fits(flight, step) && FlightInv(s, cfg, flight, drawn)
    ensures ServerSafe(s, cfg, ServePart(s, cfg, flight, step).0)
  {
    hide ServerInv, Inv, Evolves, AccessInv, ServerSafe;
    match step
    case Command(call) => PerformSafe(s.tables, cfg.scopes, call); TablesStep(s, cfg, Perform(s.tables, call));
    case BeginStep(request, now) => CleanupSafe(s, cfg, now);
    case EnrollCheck(_, _, _) => DropSafe(s, cfg, s);
    case ResumeCheck(_, _) => DropSafe(s, cfg, s);
    case RevokeStep(token, client, now, at) => RevokeSafe(s, cfg, token, client, now, at);
    case Restart => DropSafe(s, cfg, Server(s.tables, map[], map[], map[]));
    case _ =>
      if step.ApproveCheck? || step.CodeRead? || step.RefreshStep? || step.BearerRead? {
        FirstPartSafe(s, cfg, flight, step);
      } else {
        LaterPartSafe(s, cfg, flight, drawn, step);
      }
  }

  // ---------- what a step may add in memory ----------

  /** A step adds entries only under the identifiers it draws. */
  ghost predicate AddsOnly<V>(before: map<string, V>, after: map<string, V>, drawn: seq<string>) {
    forall k | k in after :: k in drawn || (k in before && after[k] == before[k])
  }

  ghost predicate ServerAdds(s: Server, t: Server, drawn: seq<string>) {
    AddsOnly(s.transactions, t.transactions, drawn) && AddsOnly(s.codes, t.codes, drawn)
    && AddsOnly(s.tokens, t.tokens, drawn)
  }

  lemma AddsNothing(s: Server, t: Server, drawn: seq<string>)
    requires ServerAdds(s, t, [])
    ensures ServerAdds(s, t, drawn)
  {
  }

  lemma AddsThen(s: Server, mid: Server, t: Server)
    requires ServerAdds(s, mid, []) && ServerAdds(mid, t, [])
    ensures ServerAdds(s, t, [])
  {
  }

  lemma CleanupAdds(s: Server, now: int)
    ensures ServerAdds(s, Cleanup(s, now), [])
  {
  }

  lemma RotateForAdds(s: Server, cfg: Config, req: RefreshRequest, next: RefreshToken, readAt: int)
    ensures ServerAdds(s, RotateFor(s, cfg, req, next, readAt).0, [])
  {
    hide Rotate;
  }

  lemma ReadBearerAdds(s: Server, cfg: Config, token: string, checkedAt: int, grantAt: int)
    ensures ServerAdds(s, ReadBearer(s, cfg, token, checkedAt, grantAt).0, [])
  {
    hide GetGrant;
  }

  lemma TakeTransactionAdds(s: Server, cfg: Config, id: string, secret: string, at: int)
    ensures ServerAdds(s, TakeTransaction(s, cfg, id, secret, at).0, [])
  {
    hide GrantRefusal;
  }

  lemma TakeCodeAdds(s: Server, cfg: Config, req: CodeRequest, readAt: int)
    ensures ServerAdds(s, TakeCode(s, cfg, req, readAt).0, [])
  {
    hide GetGrant;
  }

  lemma RevokeAdds(s: Server, token: string, client: Option<ClientId>, at: int)
    ensures ServerAdds(s, RevokeEither(s, token, client, at), [])
  {
    hide RevokeTokenFamily, RevokeRefreshToken;
  }

  /** The first part of a request only takes entries away. */
  lemma FirstPartAdds(s: Server, cfg: Config, flight: Flight, step: Step)
    requires Fits(flight, step)
    requires step.ApproveCheck? || step.CodeRead? || step.RefreshStep? || step.BearerRead? || step.RevokeStep?
    ensures ServerAdds(s, ServePart(s, cfg, flight, step).0, [])
  {
    hide ServerAdds, RevokeEither, TakeTransaction, TakeCode, ReadBearer, RotateFor, Cleanup;
    var clean := Cleanup(s, step.now);
    CleanupAdds(s, step.now);
    match step {
      case ApproveCheck(id, secret, now, at) => TakeTransactionAdds(clean, cfg, id, secret, at);
      case CodeRead(req, now, readAt) => TakeCodeAdds(clean, cfg, req, readAt);
      case RefreshStep(req, next, now, readAt) => RotateForAdds(clean, cfg, req, next, readAt);
      case BearerRead(token, now, checkedAt, grantAt) => ReadBearerAdds(clean, cfg, token, checkedAt, grantAt);
      case RevokeStep(token, from, now, at) => RevokeAdds(clean, token, from, at);
    }
    AddsThen(s, clean, ServePart(s, cfg, flight, step).0);
  }

  lemma WriteAdds(s: Server, cfg: Config, flight: Flight, step: Step)
    requires Fits(flight, step) && (step.ResumeWrite? || step.ApproveWrite?)
    ensures ServerAdds(s, ServePart(s, cfg, flight, step).0, Draws(step))
  {
    hide WriteClient, WriteGrant, ParseScope;
  }

  lemma IssueAdds(s: Server, cfg: Config, flight: Flight, access: string, at: int)
    requires flight.Rotating?
    ensures ServerAdds(s, Issue(s, cfg, flight, access, at).0, [access])
    ensures Issue(s, cfg, flight, access, at).0.tables == s.tables
  {
  }

  lemma FamilyAdds(s: Server, cfg: Config, flight: Flight, ids: Fresh)
    requires flight.Inserting?
    ensures ServerAdds(s, AddFamily(s, cfg, flight.grant, flight.row, ids, flight.insertedAt).0,
                       [ids.refresh, ids.access])
  {
    hide WriteFamily;
  }

  lemma OtherAdds(s: Server, cfg: Config, flight: Flight, step: Step)
    requires Fits(flight, step)
    requires step.Command? || step.BeginStep? || step.EnrollCheck? || step.EnrollWrite? || step.ResumeCheck?
             || step.CodeCheck? || step.BearerCheck? || step.Restart?
    ensures ServerAdds(s, ServePart(s, cfg, flight, step).0, [])
  {
    hide Perform, GetTokenFamily, WriteClient, CheckFamilyGrant, Paired;
  }

  lemma ServeAdds(s: Server, cfg: Config, flight: Flight, step: Step)
    requires Fits(flight, step)
    ensures ServerAdds(s, ServePart(s, cfg, flight, step).0, Draws(step))
  {
    hide ServerAdds, Issue, AddFamily;
    if step.IssueStep? {
      IssueAdds(s, cfg, flight, step.access, step.at);
    } else if step.CodeInsert? {
      FamilyAdds(s, cfg, flight, step.ids);
    } else if step.ResumeWrite? || step.ApproveWrite? {
      WriteAdds(s, cfg, flight, step);
    } else {
      ServePartQuietly(s, cfg, flight, step);
      AddsNothing(s, ServePart(s, cfg, flight, step).0, Draws(step));
    }
  }

  lemma ServePartQuietly(s: Server, cfg: Config, flight: Flight, step: Step)
    requires Fits(flight, step)
    requires !step.IssueStep? && !step.CodeInsert? && !step.ResumeWrite? && !step.ApproveWrite?
    ensures ServerAdds(s, ServePart(s, cfg, flight, step).0, [])
  {
    hide ServerAdds, ServePart;
    if step.ApproveCheck? || step.CodeRead? || step.RefreshStep? || step.BearerRead? || step.RevokeStep? {
      FirstPartAdds(s, cfg, flight, step);
    } else {
      OtherAdds(s, cfg, flight, step);
    }
  }

  // ---------- what a step leaves to the request ----------

  /** Whatever the owner ends, a bearer that was found active is severed from it. */
  lemma CommandSevers(t: Tables, supported: set<string>, call: Call, a: Access)
    requires Inv(t, supported) && AccessInv(t, a) && Severed(t, a)
    ensures Severed(Perform(t, call), a)
  {
    assert FamilyInv(t, a.family) && GrantInv(t, supported, a.grant);
  }

  lemma FlightEvolves(s: Server, t: Server, cfg: Config, flight: Flight, drawn: set<string>)
    requires FlightInv(s, cfg, flight, drawn) && !flight.Checking? && Evolves(s.tables, t.tables)
    requires t.transactions == s.transactions && t.codes == s.codes
    ensures FlightInv(t, cfg, flight, drawn)
  {
    match flight
    case Granting(_, tr, at) =>
      var c := NewGrant(cfg, tr, at).client;
      assert ClientEvolves(s.tables.clients[c], t.tables.clients[c]);
    case Redeeming(_, g, row) => ReadOfEvolves(s.tables, t.tables, g, row);
    case Inserting(_, g, row, _) => ReadOfEvolves(s.tables, t.tables, g, row);
    case _ =>
  }

  lemma CommandKeepsFlight(s: Server, cfg: Config, flight: Flight, drawn: set<string>, call: Call)
    requires ServerInv(s, cfg) && FlightInv(s, cfg, flight, drawn)
    ensures FlightInv(s.(tables := Perform(s.tables, call)), cfg, flight, drawn)
  {
    PerformSafe(s.tables, cfg.scopes, call);
    if flight.Checking? {
      assert AccessInv(s.tables, s.tokens[flight.token]);
      CommandSevers(s.tables, cfg.scopes, call, flight.access);
    } else {
      FlightEvolves(s, s.(tables := Perform(s.tables, call)), cfg, flight, drawn);
    }
  }

  lemma TakenTransactionFits(s: Server, cfg: Config, id: string, secret: string, at: int, drawn: set<string>)
    requires Inv(s.tables, cfg.scopes) && s.transactions.Keys <= drawn && TakeTransaction(s, cfg, id, secret, at).1.Ok?
    ensures FlightInv(TakeTransaction(s, cfg, id, secret, at).0, cfg,
                      Granting(id, TakeTransaction(s, cfg, id, secret, at).1.value, at), drawn)
  {
    CheckedGrantFits(s.tables, cfg.scopes, NewGrant(cfg, TakeTransaction(s, cfg, id, secret, at).1.value, at));
  }

  lemma TakenCodeRead(s: Server, cfg: Config, req: CodeRequest, readAt: int, drawn: set<string>)
    requires s.codes.Keys <= drawn && TakeCode(s, cfg, req, readAt).1.Ok?
    ensures var (after, g) := TakeCode(s, cfg, req, readAt);
            FlightInv(after, cfg, Redeeming(req.code, g.value.0, g.value.1), drawn)
  {
    TakeCodeSafe(s, cfg, req, readAt);
  }

  lemma RecheckedFits(s: Server, cfg: Config, flight: Flight, at: int, drawn: set<string>)
    requires flight.Redeeming? && FlightInv(s, cfg, flight, drawn)
             && RecheckGrant(s, cfg, flight.grant, flight.row, at).1
    ensures FlightInv(RecheckGrant(s, cfg, flight.grant, flight.row, at).0, cfg,
                      Inserting(flight.code, flight.grant, flight.row, at), drawn)
  {
    RecheckSafe(s, cfg, flight.grant, flight.row, at);
  }

  lemma RotatedFamilyThere(s: Server, cfg: Config, req: RefreshRequest, next: RefreshToken, readAt: int,
                           drawn: set<string>)
    requires RotateFor(s, cfg, req, next, readAt).1.Ok?
    ensures FlightInv(RotateFor(s, cfg, req, next, readAt).0, cfg,
                      Rotating(RotateFor(s, cfg, req, next, readAt).1.value, next, req.scope), drawn)
  {
  }

  lemma ReadBearerSevered(s: Server, cfg: Config, token: string, checkedAt: int, grantAt: int, drawn: set<string>)
    requires ServerInv(s, cfg) && ReadBearer(s, cfg, token, checkedAt, grantAt).1.Some?
    ensures var (after, a) := ReadBearer(s, cfg, token, checkedAt, grantAt);
            FlightInv(after, cfg, Checking(token, a.value), drawn)
  {
    assert AccessInv(s.tables, s.tokens[token]);
  }

  lemma FlightAfter(w: World, cfg: Config, step: Step)
    requires WorldInv(w, cfg) && Enabled(w, cfg, step)
    ensures var (server, flight) := ServePart(w.server, cfg, w.flight, step); FlightInv(server, cfg, flight, w.drawn)
  {
    hide Inv, AccessInv, Evolves, TakeTransaction, TakeCode, RotateFor, ReadBearer, RecheckGrant;
    var s := w.server;
    match step
    case Command(call) => CommandKeepsFlight(s, cfg, w.flight, w.drawn, call);
    case ApproveCheck(id, secret, now, at) =>
      CleanupSafe(s, cfg, now);
      if TakeTransaction(Cleanup(s, now), cfg, id, secret, at).1.Ok? {
        TakenTransactionFits(Cleanup(s, now), cfg, id, secret, at, w.drawn);
      }
    case CodeRead(req, now, readAt) =>
      if TakeCode(Cleanup(s, now), cfg, req, readAt).1.Ok? {
        TakenCodeRead(Cleanup(s, now), cfg, req, readAt, w.drawn);
      }
    case CodeCheck(at) =>
      if RecheckGrant(s, cfg, w.flight.grant, w.flight.row, at).1 {
        RecheckedFits(s, cfg, w.flight, at, w.drawn);
      }
    case RefreshStep(req, next, now, readAt) =>
      if RotateFor(Cleanup(s, now), cfg, req, next, readAt).1.Ok? {
        RotatedFamilyThere(Cleanup(s, now), cfg, req, next, readAt, w.drawn);
      }
    case BearerRead(token, now, checkedAt, grantAt) =>
      CleanupSafe(s, cfg, now);
      if ReadBearer(Cleanup(s, now), cfg, token, checkedAt, grantAt).1.Some? {
        ReadBearerSevered(Cleanup(s, now), cfg, token, checkedAt, grantAt, w.drawn);
      }
    case _ =>
  }

  lemma MoreDrawn(s: Server, cfg: Config, flight: Flight, drawn: set<string>, more: set<string>)
    requires FlightInv(s, cfg, flight, drawn) && drawn <= more
    ensures FlightInv(s, cfg, flight, more)
  {
  }

  lemma StepKeepsInv(w: World, cfg: Config, step: Step)
    requires WorldInv(w, cfg) && Enabled(w, cfg, step)
    ensures WorldInv(Apply(w, cfg, step), cfg)
    ensures Evolves(w.server.tables, Apply(w, cfg, step).server.tables)
  {
    hide ServePart, Inv, AccessInv, Evolves, FlightInv;
    ServeSafe(w.server, cfg, w.flight, w.drawn, step);
    ServeAdds(w.server, cfg, w.flight, step);
    FlightAfter(w, cfg, step);
    var t := Apply(w, cfg, step);
    MoreDrawn(t.server, cfg, t.flight, w.drawn, t.drawn);
  }
}
