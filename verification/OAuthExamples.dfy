/** Runs from a new installation that show what the other modules only rule out under a
    condition: a barrier broken by a stale write, and refreshes that fail after rotating. */
module OAuthExamples {
  import opened AuthSeal
  import opened AuthTables
  import opened OAuth
  import opened OAuthBarrier
  import opened OAuthEndpoints
  import opened OAuthMachine
  import opened OAuthRefresh
  import opened OAuthRuns
  import opened Results

  const SECRET := "0123456789abcdef0123456789abcdef"
  const CFG := Config("r", {"s"}, "approval", "o", "p", 100, 100, 100, 1000, 1000, 1)
  const REQUEST := AuthorizationRequest("code", "c", "u", "r", S256("v"), "S256", true, [])
  const PENDING_TRANSACTION := Transaction("c", "u", "r", S256("v"), {"s"}, 102)
  const GRANT_ROW := Grant("o", "c", "r", {"s"}, "p", 3, 1003, GrantActive)
  const FAMILY_ROW := Family("g", "o", "c", "r", 4, 1003, FamilyActive, None, None, 0)
  const BEARER := Access("c", "r", {"s"}, "g", "o", "p", 1003, "f", 104)

  function Owners(secret: string, expiresAt: int, consumedAt: Option<int>): map<OwnerId, Owner> {
    map["o" := Owner(secret, expiresAt, consumedAt, true)]
  }

  function Clients(enabled: bool): map<ClientId, Client> { map["c" := Client("o", "u", 2, enabled)] }

  /** The world with these owners and clients and nothing else in the tables. */
  function Plain(owners: map<OwnerId, Owner>, clients: map<ClientId, Client>, transactions: map<string, Transaction>,
                 flight: Flight, drawn: set<string>): World {
    World(Server(Tables(owners, clients, map[], map[], map[]), transactions, map[], map[]), flight, drawn)
  }

  lemma Extend(worlds: seq<World>, steps: seq<Step>, step: Step, next: World)
    requires Run(worlds, steps, CFG) && Enabled(worlds[|steps|], CFG, step) && next == Apply(worlds[|steps|], CFG, step)
    ensures Run(worlds + [next], steps + [step], CFG)
  {
    hide WorldInv, Enabled, Apply;
    var after, taken := worlds + [next], steps + [step];
    forall i | 0 <= i < |taken| ensures StepAt(after, taken, CFG, i) {
      if i < |steps| {
        assert StepAt(worlds, steps, CFG, i);
      }
    }
  }

  lemma Pairing() returns (worlds: seq<World>, steps: seq<Step>)
    ensures Run(worlds, steps, CFG) && |steps| == 2 && worlds[0] == Installed()
    ensures worlds[2] == Plain(Owners(SECRET, 10, Some(1)), map[], map[], Idle, {})
  {
    FreshInstallation(CFG);
    worlds, steps := [Installed()], [];
    var paired := Plain(Owners(SECRET, 10, None), map[], map[], Idle, {});
    Extend(worlds, steps, Command(Bootstrap("o", SECRET, 0, 10)), paired);
    worlds, steps := worlds + [paired], steps + [Command(Bootstrap("o", SECRET, 0, 10))];
    var consumed := Plain(Owners(SECRET, 10, Some(1)), map[], map[], Idle, {});
    Extend(worlds, steps, Command(Consume("o", 1)), consumed);
    worlds, steps := worlds + [consumed], steps + [Command(Consume("o", 1))];
  }

  lemma Begun() returns (worlds: seq<World>, steps: seq<Step>)
    ensures Run(worlds, steps, CFG) && |steps| == 4 && worlds[0] == Installed()
    ensures worlds[4] == Plain(Owners(SECRET, 10, Some(1)), Clients(true), map["t" := PENDING_TRANSACTION], Idle, {"t"})
  {
    worlds, steps := Pairing();
    var registering := worlds[2].(flight := Registering(REQUEST, 2));
    Extend(worlds, steps, ResumeCheck(REQUEST, 2), registering);
    worlds, steps := worlds + [registering], steps + [ResumeCheck(REQUEST, 2)];
    var begun := Plain(Owners(SECRET, 10, Some(1)), Clients(true), map["t" := PENDING_TRANSACTION], Idle, {"t"});
    Begins(registering, begun);
    Extend(worlds, steps, ResumeWrite("t", 2), begun);
    worlds, steps := worlds + [begun], steps + [ResumeWrite("t", 2)];
  }

  lemma Begins(before: World, after: World)
    requires before == Plain(Owners(SECRET, 10, Some(1)), map[], map[], Registering(REQUEST, 2), {})
    requires after == Plain(Owners(SECRET, 10, Some(1)), Clients(true), map["t" := PENDING_TRANSACTION], Idle, {"t"})
    ensures Enabled(before, CFG, ResumeWrite("t", 2)) && Apply(before, CFG, ResumeWrite("t", 2)) == after
  {
    assert ParseScope([], CFG.scopes) == Ok({"s"});
  }

  /** The owner has approved, the client has been checked, and the grant is to be written. */
  lemma Approved() returns (worlds: seq<World>, steps: seq<Step>)
    ensures Run(worlds, steps, CFG) && |steps| == 5 && worlds[0] == Installed()
    ensures worlds[5] == Plain(Owners(SECRET, 10, Some(1)), Clients(true), map[], Granting("t", PENDING_TRANSACTION, 3),
                               {"t"})
  {
    worlds, steps := Begun();
    var approved := Plain(Owners(SECRET, 10, Some(1)), Clients(true), map[], Granting("t", PENDING_TRANSACTION, 3),
                          {"t"});
    Approves(worlds[4], approved);
    Extend(worlds, steps, ApproveCheck("t", "approval", 3, 3), approved);
    worlds, steps := worlds + [approved], steps + [ApproveCheck("t", "approval", 3, 3)];
  }

  lemma Approves(before: World, after: World)
    requires before == Plain(Owners(SECRET, 10, Some(1)), Clients(true), map["t" := PENDING_TRANSACTION], Idle, {"t"})
    requires after == Plain(Owners(SECRET, 10, Some(1)), Clients(true), map[], Granting("t", PENDING_TRANSACTION, 3),
                            {"t"})
    ensures var step := ApproveCheck("t", "approval", 3, 3);
            Enabled(before, CFG, step) && Apply(before, CFG, step) == after
  {
    assert Cleanup(before.server, 3) == before.server;
  }

  // ---------- from the writing of the grant to a bearer ----------

  function Granted(owners: map<OwnerId, Owner>, enabled: bool, codes: map<string, Code>, flight: Flight): World {
    World(Server(Tables(owners, Clients(enabled), map["g" := GRANT_ROW], map[], map[]), map[], codes, map[]), flight,
          {"t", "k"})
  }

  function Issued(owners: map<OwnerId, Owner>, enabled: bool, flight: Flight): World {
    World(Server(Tables(owners, Clients(enabled), map["g" := GRANT_ROW], map["f" := FAMILY_ROW],
                        map["x" := Token("f", 0, 4, 1003, None, TokenActive)]),
                 map[], map[], map["b" := BEARER]),
          flight, {"t", "k", "x", "b"})
  }

  const CODE := Code(PENDING_TRANSACTION, "g", "o", "p", 103)

  lemma WritesGrant(owners: map<OwnerId, Owner>, enabled: bool)
    ensures var before := Plain(owners, Clients(enabled), map[], Granting("t", PENDING_TRANSACTION, 3), {"t"});
            Enabled(before, CFG, ApproveWrite("g", "k"))
            && Apply(before, CFG, ApproveWrite("g", "k")) == Granted(owners, enabled, map["k" := CODE], Idle)
  {
  }

  lemma ReadsCode(owners: map<OwnerId, Owner>, enabled: bool)
    ensures var before := Granted(owners, enabled, map["k" := CODE], Idle);
            var step := CodeRead(CodeRequest("k", "c", "u", "r", "v"), 4, 4);
            Enabled(before, CFG, step)
            && Apply(before, CFG, step) == Granted(owners, enabled, map[], Redeeming("k", "g", GRANT_ROW))
  {
    var before := Granted(owners, enabled, map["k" := CODE], Idle);
    assert Cleanup(before.server, 4) == before.server;
  }

  lemma ChecksGrant(owners: map<OwnerId, Owner>, enabled: bool)
    ensures var before := Granted(owners, enabled, map[], Redeeming("k", "g", GRANT_ROW));
            Enabled(before, CFG, CodeCheck(4))
            && Apply(before, CFG, CodeCheck(4)) == Granted(owners, enabled, map[], Inserting("k", "g", GRANT_ROW, 4))
  {
  }

  lemma InsertsFamily(owners: map<OwnerId, Owner>, enabled: bool)
    ensures var before := Granted(owners, enabled, map[], Inserting("k", "g", GRANT_ROW, 4));
            var step := CodeInsert(Fresh("f", "x", "b"));
            Enabled(before, CFG, step) && Apply(before, CFG, step) == Issued(owners, enabled, Idle)
  {
  }

  /** From an approval whose client was checked, the code and then a bearer are issued,
      whatever has become of the owner and the client. */
  lemma Redemption(worlds: seq<World>, steps: seq<Step>, owners: map<OwnerId, Owner>, enabled: bool)
    returns (after: seq<World>, taken: seq<Step>)
    requires Run(worlds, steps, CFG)
    requires worlds[|steps|] == Plain(owners, Clients(enabled), map[], Granting("t", PENDING_TRANSACTION, 3), {"t"})
    ensures Run(after, taken, CFG) && |taken| == |steps| + 4 && after[..|worlds|] == worlds && taken[..|steps|] == steps
    ensures taken[|steps|] == ApproveWrite("g", "k")
            && after[|steps| + 1] == Granted(owners, enabled, map["k" := CODE], Idle)
    ensures after[|taken|] == Issued(owners, enabled, Idle)
  {
    hide WorldInv, Enabled, Apply;
    after, taken := worlds, steps;
    WritesGrant(owners, enabled);
    var w := Granted(owners, enabled, map["k" := CODE], Idle);
    Extend(after, taken, ApproveWrite("g", "k"), w);
    after, taken := after + [w], taken + [ApproveWrite("g", "k")];
    ReadsCode(owners, enabled);
    var read := CodeRead(CodeRequest("k", "c", "u", "r", "v"), 4, 4);
    w := Granted(owners, enabled, map[], Redeeming("k", "g", GRANT_ROW));
    Extend(after, taken, read, w);
    after, taken := after + [w], taken + [read];
    ChecksGrant(owners, enabled);
    w := Granted(owners, enabled, map[], Inserting("k", "g", GRANT_ROW, 4));
    Extend(after, taken, CodeCheck(4), w);
    after, taken := after + [w], taken + [CodeCheck(4)];
    InsertsFamily(owners, enabled);
    w := Issued(owners, enabled, Idle);
    Extend(after, taken, CodeInsert(Fresh("f", "x", "b")), w);
    after, taken := after + [w], taken + [CodeInsert(Fresh("f", "x", "b"))];
  }

  lemma ReadsBearer(owners: map<OwnerId, Owner>, enabled: bool)
    ensures var before := Issued(owners, enabled, Idle);
            Enabled(before, CFG, BearerRead("b", 5, 5, 5))
            && Apply(before, CFG, BearerRead("b", 5, 5, 5)) == Issued(owners, enabled, Checking("b", BEARER))
            && CheckFamily(Issued(owners, enabled, Checking("b", BEARER)).server, BEARER, 5).1.Some?
  {
    var before := Issued(owners, enabled, Idle);
    assert Cleanup(before.server, 5) == before.server;
  }

  // ---------- a broken barrier ----------

  lemma ResetsInFlight()
    ensures var before := Plain(Owners(SECRET, 10, Some(1)), Clients(true), map[],
                                Granting("t", PENDING_TRANSACTION, 3), {"t"});
            var step := Command(Reset("o", SECRET, 4, 20));
            Enabled(before, CFG, step)
            && Apply(before, CFG, step) ==
               Plain(Owners(SECRET, 20, None), Clients(false), map[], Granting("t", PENDING_TRANSACTION, 3), {"t"})
  {
  }

  /** A reset that commits between the check and the insertion of an approved grant: the
      grant is active although the owner is unpaired and the client disabled, its code is
      exchanged, and the bearer authenticates. */
  lemma BarrierCanFail() returns (worlds: seq<World>, steps: seq<Step>)
    ensures Run(worlds, steps, CFG) && worlds[0] == Installed() && |steps| == 11
    ensures steps[5].Command? && steps[5].call.Reset? && worlds[5].flight.Granting? && StaleAt(worlds, steps, CFG, 6)
    ensures !Sealed(worlds[7].server.tables)
    ensures var w := worlds[11];
            Pending(w.server.tables, "o") && w.flight == Checking("b", BEARER) && BEARER.owner == "o"
            && Authenticated(w, BearerCheck(5)).Some?
  {
    hide WorldInv, Enabled, Apply;
    worlds, steps := Approved();
    ResetsInFlight();
    var reset := Plain(Owners(SECRET, 20, None), Clients(false), map[], Granting("t", PENDING_TRANSACTION, 3), {"t"});
    Extend(worlds, steps, Command(Reset("o", SECRET, 4, 20)), reset);
    worlds, steps := worlds + [reset], steps + [Command(Reset("o", SECRET, 4, 20))];
    worlds, steps := Redemption(worlds, steps, Owners(SECRET, 20, None), false);
    ReadsBearer(Owners(SECRET, 20, None), false);
    var read := Issued(Owners(SECRET, 20, None), false, Checking("b", BEARER));
    Extend(worlds, steps, BearerRead("b", 5, 5, 5), read);
    worlds, steps := worlds + [read], steps + [BearerRead("b", 5, 5, 5)];
    assert worlds[6] == reset && steps[6] == ApproveWrite("g", "k");
    assert worlds[7] == Granted(Owners(SECRET, 20, None), false, map["k" := CODE], Idle);
    assert !GrantSealed(worlds[7].server.tables, "g");
  }

  // ---------- refreshes that fail after rotating ----------

  function RotatedTables(): Tables {
    Tables(Owners(SECRET, 10, Some(1)), Clients(true), map["g" := GRANT_ROW], map["f" := FAMILY_ROW.(generation := 1)],
           map["x" := Token("f", 0, 4, 1003, Some(5), TokenConsumed), "y" := Token("f", 1, 5, 1003, None, TokenActive)])
  }

  function RotatedWorld(scope: Option<seq<string>>): World {
    World(Server(RotatedTables(), map[], map[], map["b" := BEARER]), Rotating("f", "y", scope),
          {"t", "k", "x", "b", "y"})
  }

  lemma RotatesTables()
    ensures Rotate(Issued(Owners(SECRET, 10, Some(1)), true, Idle).server.tables, "x", "y", "c", "r", 5) ==
            (RotatedTables(), Ok(("f", FAMILY_ROW.(generation := 1), GRANT_ROW)))
  {
    var t := Issued(Owners(SECRET, 10, Some(1)), true, Idle).server.tables;
    assert !GenerationTaken(t.tokens, "f", 1);
    assert Rotated(t, "x", "y", 5) == RotatedTables();
  }

  lemma RotatesFirst(scope: Option<seq<string>>)
    ensures var before := Issued(Owners(SECRET, 10, Some(1)), true, Idle);
            var step := RefreshStep(RefreshRequest("x", "c", "r", scope), "y", 5, 5);
            Enabled(before, CFG, step) && Rotates(before, CFG, step, "x")
            && Apply(before, CFG, step) == RotatedWorld(scope)
  {
    hide Rotate, RotatedTables;
    var before := Issued(Owners(SECRET, 10, Some(1)), true, Idle);
    RotatesTables();
    assert Cleanup(before.server, 5) == before.server;
  }

  /** A run in which a refresh has rotated and is still to be answered. */
  lemma RotatedFirst(scope: Option<seq<string>>) returns (worlds: seq<World>, steps: seq<Step>)
    ensures Run(worlds, steps, CFG) && worlds[0] == Installed() && |steps| == 10
    ensures Rotates(worlds[9], CFG, steps[9], "x") && worlds[10] == RotatedWorld(scope)
    ensures steps[9] == RefreshStep(RefreshRequest("x", "c", "r", scope), "y", 5, 5)
    ensures worlds[9] == Issued(Owners(SECRET, 10, Some(1)), true, Idle)
  {
    hide WorldInv, Enabled, Apply, Rotates;
    worlds, steps := Approved();
    worlds, steps := Redemption(worlds, steps, Owners(SECRET, 10, Some(1)), true);
    RotatesFirst(scope);
    var step := RefreshStep(RefreshRequest("x", "c", "r", scope), "y", 5, 5);
    Extend(worlds, steps, step, RotatedWorld(scope));
    worlds, steps := worlds + [RotatedWorld(scope)], steps + [step];
  }

  lemma Revokes()
    ensures var step := Command(EndAccess("o", 5, "owner_revoke"));
            Enabled(RotatedWorld(None), CFG, step) && Apply(RotatedWorld(None), CFG, step).flight.Rotating?
            && !Dead(RotatedTables(), "f") && Dead(Apply(RotatedWorld(None), CFG, step).server.tables, "f")
  {
  }

  /** The owner revokes between the rotation and the issuing: a refresh that asks for nothing
      and has time left is refused, and its token is consumed. */
  lemma RevokedInBetween() returns (worlds: seq<World>, steps: seq<Step>)
    ensures Run(worlds, steps, CFG) && worlds[0] == Installed() && |steps| == 12 && CommandsBetween(steps, 9, 11)
    ensures steps[9].RefreshStep? && steps[10].Command? && steps[11] == IssueStep("d", 5)
    ensures Kills(worlds, 10, "f") && Consumed(worlds[11].server.tables, "x")
    ensures Issuable(CFG, GRANT_ROW, steps[9].refreshRequest.scope, 5) && worlds[11].flight.Rotating?
    ensures Answer(worlds[11], CFG, steps[11]).Err?
  {
    hide WorldInv, Enabled, Apply, Rotates, Consumed, Dead, Answer;
    worlds, steps := RotatedFirst(None);
    Revokes();
    var command := Command(EndAccess("o", 5, "owner_revoke"));
    var ended := Apply(worlds[10], CFG, command);
    Extend(worlds, steps, command, ended);
    worlds, steps := worlds + [ended], steps + [command];
    IssueDraws(ended);
    var issued := Apply(ended, CFG, IssueStep("d", 5));
    Extend(worlds, steps, IssueStep("d", 5), issued);
    worlds, steps := worlds + [issued], steps + [IssueStep("d", 5)];
    assert Kills(worlds, 10, "f");
    FailsAfterRotatingInRun(worlds, steps, CFG, 9, 11);
  }

  lemma IssueDraws(w: World)
    requires w == Apply(RotatedWorld(None), CFG, Command(EndAccess("o", 5, "owner_revoke")))
    ensures Enabled(w, CFG, IssueStep("d", 5))
  {
  }

  /** For every scope asked for and every time at which the end of a refresh is refused,
      a run from a new installation in which the presented token is rotated first. */
  lemma FailsAfterRotating(scope: Option<seq<string>>, at: int) returns (worlds: seq<World>, steps: seq<Step>)
    requires !Issuable(CFG, GRANT_ROW, scope, at)
    ensures Run(worlds, steps, CFG) && worlds[0] == Installed() && |steps| == 10
    ensures Rotates(worlds[9], CFG, steps[9], "x") && Consumed(worlds[10].server.tables, "x")
    ensures worlds[10].flight.Rotating? && Answer(worlds[10], CFG, IssueStep("d", at)).Err?
  {
    hide WorldInv, Enabled, Apply, Rotates;
    worlds, steps := RotatedFirst(scope);
    AnswersExactly(RotatedWorld(scope).server, CFG, scope, "f", "y", "d", at);
  }

  /** Both ways to be refused occur: another scope, and no time left. */
  lemma BothRefusals()
    ensures !Issuable(CFG, GRANT_ROW, Some(["z"]), 5) && Issuable(CFG, GRANT_ROW, None, 5)
            && !Issuable(CFG, GRANT_ROW, None, 1003)
  {
    assert "z" in (set w | w in ["z"]);
  }
}
