/** What a reservation of apps/agent/src/tmux.js can miss: the figure it computes against what
    is held at that moment, and a run in which an open slips between its listing and its
    count. */
module AdmissionSlips {
  import opened Results
  import opened Admission
  import opened AdmissionRuns

  // ---------- an undisturbed reservation ----------

  /** Every session as it is now. */
  function Listing(s: State, order: seq<Id>): seq<Listed> { Seen(s, order, |order|, |order|) }

  /** The same when the first `probed` sessions have been probed and `read` logs read. */
  function Seen(s: State, order: seq<Id>, probed: nat, read: nat): seq<Listed> {
    seq(|order|, i requires 0 <= i < |order| =>
      Listed(IsClosed(s, order[i]),
             i < probed && !IsClosed(s, order[i]) && order[i] in s.running,
             if i < read && IsClosed(s, order[i]) then LogOf(s, order[i]) else NoLog))
  }

  function Upto(n: nat): (r: set<nat>)
    ensures forall i: nat :: i in r <==> i < n
  {
    if n == 0 then {} else Upto(n - 1) + {n - 1}
  }

  lemma {:induction false} RunThen(config: Config, s: State, steps: seq<Step>, more: seq<Step>)
    requires IsRun(config, s, steps) && IsRun(config, Run(s, steps), more)
    ensures IsRun(config, s, steps + more) && Run(s, steps + more) == Run(Run(s, steps), more)
    decreases |steps|
  {
    if steps == [] {
      assert steps + more == more;
    } else {
      RunThen(config, Apply(s, steps[0]), steps[1..], more);
      assert (steps + more)[1..] == steps[1..] + more;
    }
  }

  lemma RunStep(config: Config, s: State, steps: seq<Step>, step: Step)
    requires IsRun(config, s, steps) && Enabled(config, Run(s, steps), step)
    ensures IsRun(config, s, steps + [step]) && Run(s, steps + [step]) == Apply(Run(s, steps), step)
  {
    var t := Run(s, steps);
    assert [step][1..] == [] && IsRun(config, Apply(t, step), []);
    assert Run(t, [step]) == Apply(t, step);
    RunThen(config, s, steps, [step]);
  }

  lemma {:induction false} ProbesInTurn(config: Config, s: State, order: seq<Id>, n: nat) returns (steps: seq<Step>)
    requires s.reservation.NotReserving? && Distinct(order) && Elements(order) == s.rows.Keys && n <= |order|
    ensures IsRun(config, s, steps) && Run(s, steps) == s.(reservation := Looking(order, Seen(s, order, n, 0), Upto(n)))
  {
    if n == 0 {
      steps := [];
      RunStep(config, s, [], List(order));
      steps := [List(order)];
      assert Snapshot(s, order) == Seen(s, order, 0, 0);
    } else {
      steps := ProbesInTurn(config, s, order, n - 1);
      RunStep(config, s, steps, Probe(n - 1));
      steps := steps + [Probe(n - 1)];
      var before := Seen(s, order, n - 1, 0);
      assert before[n - 1 := before[n - 1].(alive := !IsClosed(s, order[n - 1]) && order[n - 1] in s.running)] ==
             Seen(s, order, n, 0);
    }
  }

  lemma {:induction false} SameActive(s: State, order: seq<Id>)
    ensures Active(Seen(s, order, |order|, 0)) == Active(Listing(s, order))
    decreases |order|
  {
    if order != [] {
      var n := |order| - 1;
      SameActive(s, order[..n]);
      assert Seen(s, order, |order|, 0)[..n] == Seen(s, order[..n], n, 0);
      assert Listing(s, order)[..n] == Listing(s, order[..n]);
    }
  }

  lemma {:induction false} ReadsInTurn(config: Config, s: State, order: seq<Id>, n: nat) returns (steps: seq<Step>)
    requires s.reservation.NotReserving? && Distinct(order) && Elements(order) == s.rows.Keys && n <= |order|
    requires s.pending >= 0 && Active(Listing(s, order)) + s.pending < Maximum(config)
    ensures IsRun(config, s, steps)
    ensures Run(s, steps) == s.(reservation := Tallying(order, Seen(s, order, |order|, n), s.pending, n))
  {
    if n == 0 {
      steps := ProbesInTurn(config, s, order, |order|);
      SameActive(s, order);
      RunStep(config, s, steps, Count);
      steps := steps + [Count];
    } else {
      steps := ReadsInTurn(config, s, order, n - 1);
      RunStep(config, s, steps, Inspect);
      steps := steps + [Inspect];
      var before := Seen(s, order, |order|, n - 1);
      assert before[n - 1 := before[n - 1].(log := Read(s, order[n - 1], before[n - 1]))] == Seen(s, order, |order|, n);
    }
  }

  /** When nothing else happens, a reservation comes to its end with the whole listing as it
      is, and then grants exactly what Admits says of it. */
  lemma Undisturbed(config: Config, s: State, order: seq<Id>, id: Id) returns (steps: seq<Step>)
    requires s.reservation.NotReserving? && Distinct(order) && Elements(order) == s.rows.Keys
    requires s.pending >= 0 && Active(Listing(s, order)) + s.pending < Maximum(config)
    requires id !in s.rows && id !in s.openers && id !in s.logs && id !in s.running
    ensures IsRun(config, s, steps)
    ensures Run(s, steps) == s.(reservation := Tallying(order, Listing(s, order), s.pending, |order|))
    ensures Enabled(config, Run(s, steps), Grant(id)) <==> Admits(config, Listing(s, order), s.pending)
  {
    steps := ReadsInTurn(config, s, order, |order|);
  }

  // ---------- what a count covers ----------

  /** What has been listed, with the logs as they are now. */
  function Observed(s: State, order: seq<Id>, listed: seq<Listed>): seq<Listed>
    requires |order| == |listed|
  {
    seq(|order|, i requires 0 <= i < |order| => listed[i].(log := Read(s, order[i], listed[i])))
  }

  predicate Counting(s: State) {
    && Ready(s) && Counted(s)
    && |s.reservation.order| == |s.reservation.listed| && Distinct(s.reservation.order)
  }

  /** What listed sessions and pending opens are charged beyond what they hold. */
  ghost function Spare(config: Config, s: State): int
    requires config.cap >= 0 && Counting(s)
  {
    var listed, rest := Elements(s.reservation.order), s.openers.Keys - Elements(s.reservation.order);
    var observed := Observed(s, s.reservation.order, s.reservation.listed);
    Allowance(StillOpen(observed), config.cap) + RetainedBytes(observed) - Total(config, s, listed)
    + Allowance(s.pending, config.cap) - Total(config, s, rest)
  }

  lemma Uncharged(config: Config, s: State, id: Id)
    requires config.cap >= 0 && id !in Ids(s)
    ensures Charge(config, s, id) == 0
  {
  }

  lemma RestIsMissed(s: State)
    requires s.reservation.Looking?
    ensures var listed := Elements(s.reservation.order);
            Ids(s) + listed - listed - (s.openers.Keys - listed) == Missed(s)
  {
  }

  lemma OpenersHeld(s: State)
    ensures s.openers.Keys <= Ids(s)
  {
  }

  /** Everything held is held by a listed session, by another one that is pending, or by one
      that is missed. */
  lemma HeldInParts(config: Config, s: State)
    requires config.cap >= 0 && s.reservation.Looking?
    ensures var listed := Elements(s.reservation.order);
            Total(config, s, Ids(s)) ==
            Total(config, s, listed) + Total(config, s, s.openers.Keys - listed) + Total(config, s, Missed(s))
  {
    hide Total, Charge, Missed, Ids, Elements;
    var listed := Elements(s.reservation.order);
    var all := Ids(s) + listed;
    forall id | id in all - Ids(s) ensures Charge(config, s, id) == 0 { Uncharged(config, s, id); }
    TotalOfMore(config, s, Ids(s), all);
    TotalSplit(config, s, all, listed);
    OpenersHeld(s);
    TotalSplit(config, s, all - listed, s.openers.Keys - listed);
    RestIsMissed(s);
  }

  /** The figure a reservation compares with the budget, against what is held at the moment
      it counts. */
  lemma FigureExactly(config: Config, s: State)
    requires config.cap >= 0 && Counting(s)
    ensures Committed(config, Observed(s, s.reservation.order, s.reservation.listed), s.pending) +
            Total(config, s, Missed(s)) ==
            config.cap + Total(config, s, Ids(s)) + Spare(config, s)
  {
    hide Total, Committed, RetainedBytes, Missed, Ids, Observed;
    var observed := Observed(s, s.reservation.order, s.reservation.listed);
    HeldInParts(config, s);
    FigureIsCommitted(config, observed, s.pending);
    AllowanceAdd(StillOpen(observed), s.pending, config.cap);
  }

  function Budgeted(config: Config, budget: int): Config { config.(budget := Some(budget)) }

  /** Whatever the budget is, a reservation that passes leaves everything within it: exactly
      if what the count misses is no more than what it charges too much. */
  lemma CoversExactly(config: Config, s: State, id: Id)
    requires config.cap >= 1 && Counting(s) && id !in s.rows && id !in s.openers
    ensures var observed, t := Observed(s, s.reservation.order, s.reservation.listed), Apply(s, Grant(id));
            (forall budget :: WithinBudget(Budgeted(config, budget), observed, s.pending) ==>
                                Total(config, t, Ids(t)) <= budget) <==>
            Total(config, s, Missed(s)) <= Spare(config, s)
  {
    hide Total, RetainedBytes, Missed, Ids, Spare;
    var observed, t := Observed(s, s.reservation.order, s.reservation.listed), Apply(s, Grant(id));
    var figure := Committed(config, observed, s.pending);
    FigureExactly(config, s);
    GrantTotal(config, s, id);
    FigureIsCommitted(config, observed, s.pending);
    AllowanceAdd(StillOpen(observed) + s.pending, 1, config.cap);
    assert Allowance(1, config.cap) == config.cap;
    assert WithinBudget(Budgeted(config, figure), observed, s.pending);
  }

  // ---------- the session limit ----------

  /** The places counted beyond those that are taken: terminals found alive that have died or
      been closed since, pending opens that have been given up, and those that are listed as well. */
  ghost function SparePlaces(s: State): int
    requires Counting(s)
  {
    var listed := Elements(s.reservation.order);
    Active(s.reservation.listed) - |Occupied(s) * listed| + s.pending - |Occupied(s) * (s.openers.Keys - listed)|
  }

  lemma PlaceInParts(s: State, id: Id)
    requires s.reservation.Looking? && id in Occupied(s)
    ensures id in Elements(s.reservation.order) + s.openers.Keys + Missed(s)
  {
  }

  lemma MissedApart(s: State)
    requires s.reservation.Looking?
    ensures Missed(s) !! Elements(s.reservation.order) + s.openers.Keys
  {
  }

  lemma DisjointSizes(whole: set<Id>, a: set<Id>, b: set<Id>, c: set<Id>)
    requires whole == a + b + c && a !! b && a !! c && b !! c
    ensures |whole| == |a| + |b| + |c|
  {
  }

  /** The places a reservation compares with the limit, against those taken when it counts. */
  lemma PlacesExactly(s: State)
    requires Counting(s)
    ensures Active(s.reservation.listed) + s.pending + |Occupied(s) * Missed(s)| == |Occupied(s)| + SparePlaces(s)
  {
    hide Occupied, Missed, Active, Elements;
    var listed, taken := Elements(s.reservation.order), Occupied(s);
    var rest := s.openers.Keys - listed;
    forall id | id in taken ensures id in taken * listed + taken * rest + taken * Missed(s) { PlaceInParts(s, id); }
    MissedApart(s);
    DisjointSizes(taken, taken * listed, taken * rest, taken * Missed(s));
  }

  function WithLimit(config: Config, sessions: nat): Config { config.(terminalMaxActive := sessions) }

  /** Whatever the session limit is, a reservation that passes leaves no more terminals than it
      allows: exactly if the places its count misses are no more than those it counts too much. */
  lemma PlacesCoverExactly(config: Config, s: State, id: Id)
    requires Counting(s) && id !in s.rows && id !in s.openers
    ensures (forall sessions: nat :: Active(s.reservation.listed) + s.pending < Maximum(WithLimit(config, sessions)) ==>
                                       |Occupied(Apply(s, Grant(id)))| <= Maximum(WithLimit(config, sessions))) <==>
            |Occupied(s) * Missed(s)| <= SparePlaces(s)
  {
    hide Occupied, Missed, Active, SparePlaces;
    PlacesExactly(s);
    GrantOccupies(s, id);
    NotOccupied(s, id);
    var tight := Active(s.reservation.listed) + s.pending + 1;
    assert Maximum(WithLimit(config, tight)) == tight;
  }

  lemma NotOccupied(s: State, id: Id)
    requires id !in s.rows && id !in s.openers
    ensures id !in Occupied(s)
  {
  }

  // ---------- an open that slips through ----------

  const CFG := Config(2, Some(2), 1)

  function World(rows: map<Id, bool>, logs: map<Id, nat>, openers: map<Id, Stage>, reservation: Reservation): State {
    State(rows, logs, logs.Keys, openers, |openers|, reservation)
  }

  function First(openers: map<Id, Stage>, reservation: Reservation): State {
    World(map["z" := false], map["z" := 0], openers, reservation)
  }

  function Second(openers: map<Id, Stage>, reservation: Reservation): State {
    World(map["z" := false, "a" := false], map["z" := 0, "a" := 0], openers, reservation)
  }

  /** The session z is opened. */
  lemma OneOpen() returns (steps: seq<Step>)
    ensures IsRun(CFG, Installed(), steps) && Run(Installed(), steps) == First(map[], NotReserving)
  {
    hide Run, IsRun, Advance;
    assert Elements([]) == {} && Listing(Installed(), []) == [];
    steps := Undisturbed(CFG, Installed(), [], "z");
    steps := Then(steps, Grant("z"), World(map[], map[], map["z" := Unsaved], NotReserving));
    steps := Then(steps, Launch("z"), World(map[], map["z" := 0], map["z" := Unsaved], NotReserving));
    steps := Then(steps, Save("z"), First(map["z" := Saved], NotReserving));
    steps := Then(steps, Release("z"), First(map[], NotReserving));
  }

  /** Then a second one holds its slot. */
  lemma AnotherPending() returns (steps: seq<Step>)
    ensures IsRun(CFG, Installed(), steps) && Run(Installed(), steps) == First(map["a" := Unsaved], NotReserving)
  {
    hide Run, IsRun;
    var start := OneOpen();
    var t := First(map[], NotReserving);
    assert Listing(t, ["z"]) == [Listed(false, true, NoLog)];
    OneListed(Listed(false, true, NoLog));
    var more := Undisturbed(CFG, t, ["z"], "a");
    RunThen(CFG, Installed(), start, more);
    steps := Then(start + more, Grant("a"), First(map["a" := Unsaved], NotReserving));
  }

  lemma OneListed(l: Listed)
    ensures Active([l]) == (if !l.closed && l.alive then 1 else 0) && StillOpen([l]) == (if l.closed then 0 else 1)
    ensures RetainedBytes([l]) == Retained(l) && Distinct(["z"]) && Elements(["z"]) == {"z"}
  {
    assert [l][..0] == [];
  }

  lemma Then(steps: seq<Step>, step: Step, t: State) returns (longer: seq<Step>)
    requires IsRun(CFG, Installed(), steps) && Enabled(CFG, Run(Installed(), steps), step)
    requires Apply(Run(Installed(), steps), step) == t
    ensures longer == steps + [step] && IsRun(CFG, Installed(), longer) && Run(Installed(), longer) == t
  {
    RunStep(CFG, Installed(), steps, step);
    longer := steps + [step];
  }

  const UNPROBED := [Listed(false, false, NoLog)]
  const PROBED := [Listed(false, true, NoLog)]

  predicate Leads(s: State, step: Step, t: State) { Enabled(CFG, s, step) && Apply(s, step) == t }

  lemma Slipping()
    ensures Leads(First(map["a" := Unsaved], NotReserving), List(["z"]),
                  First(map["a" := Unsaved], Looking(["z"], UNPROBED, {})))
    ensures var launched := World(map["z" := false], map["z" := 0, "a" := 0], map["a" := Unsaved],
                                  Looking(["z"], UNPROBED, {}));
            && Leads(First(map["a" := Unsaved], Looking(["z"], UNPROBED, {})), Launch("a"), launched)
            && Leads(launched, Save("a"), Second(map["a" := Saved], Looking(["z"], UNPROBED, {})))
    ensures Leads(Second(map["a" := Saved], Looking(["z"], UNPROBED, {})), Release("a"),
                  Second(map[], Looking(["z"], UNPROBED, {})))
    ensures Leads(Second(map[], Looking(["z"], UNPROBED, {})), Probe(0), Second(map[], Looking(["z"], PROBED, {0})))
  {
    OneListed(PROBED[0]);
    assert Snapshot(First(map["a" := Unsaved], NotReserving), ["z"]) == UNPROBED;
    assert UNPROBED[0 := PROBED[0]] == PROBED;
  }

  /** It is saved and released after the next reservation has listed the sessions and before
      it counts them. */
  lemma SavedMeanwhile() returns (steps: seq<Step>)
    ensures IsRun(CFG, Installed(), steps) && Run(Installed(), steps) == Second(map[], Looking(["z"], PROBED, {0}))
  {
    hide Run, IsRun, Enabled, Apply, First, Second, World;
    steps := AnotherPending();
    Slipping();
    steps := Then(steps, List(["z"]), First(map["a" := Unsaved], Looking(["z"], UNPROBED, {})));
    var launched := World(map["z" := false], map["z" := 0, "a" := 0], map["a" := Unsaved],
                          Looking(["z"], UNPROBED, {}));
    steps := Then(steps, Launch("a"), launched);
    steps := Then(steps, Save("a"), Second(map["a" := Saved], Looking(["z"], UNPROBED, {})));
    steps := Then(steps, Release("a"), Second(map[], Looking(["z"], UNPROBED, {})));
    steps := Then(steps, Probe(0), Second(map[], Looking(["z"], PROBED, {0})));
  }

  lemma CountedWithout(before: seq<Step>) returns (steps: seq<Step>)
    requires IsRun(CFG, Installed(), before)
    requires Run(Installed(), before) == Second(map[], Looking(["z"], PROBED, {0}))
    ensures before + [Count] <= steps && IsRun(CFG, Installed(), steps)
    ensures Run(Installed(), steps) == Second(map["b" := Unsaved], NotReserving)
  {
    hide Run, IsRun;
    OneListed(PROBED[0]);
    steps := Then(before, Count, Second(map[], Tallying(["z"], PROBED, 0, 0)));
    assert PROBED[0 := PROBED[0]] == PROBED;
    steps := Then(steps, Inspect, Second(map[], Tallying(["z"], PROBED, 0, 1)));
    steps := Then(steps, Grant("b"), Second(map["b" := Unsaved], NotReserving));
  }

  function Third(z: nat, a: nat, b: nat): State {
    State(map["z" := false, "a" := false], map["z" := z, "a" := a, "b" := b], {"z", "a", "b"},
          map["b" := Unsaved], 1, NotReserving)
  }

  lemma WriteLeads(s: State, id: Id)
    requires id in s.logs && !IsClosed(s, id) && s.logs[id] == 0
    ensures Leads(s, Write(id, 1), s.(logs := s.logs[id := 1]))
  {
  }

  lemma LaunchLeads()
    ensures Leads(Second(map["b" := Unsaved], NotReserving), Launch("b"), Third(0, 0, 0))
  {
  }

  lemma OneMore(z: nat, a: nat, b: nat)
    ensures Third(1, a, b) == Third(z, a, b).(logs := Third(z, a, b).logs["z" := 1])
    ensures Third(z, 1, b) == Third(z, a, b).(logs := Third(z, a, b).logs["a" := 1])
    ensures Third(z, a, 1) == Third(z, a, b).(logs := Third(z, a, b).logs["b" := 1])
  {
    var logs := map["z" := z, "a" := a, "b" := b];
    assert logs["z" := 1] == map["z" := 1, "a" := a, "b" := b];
    assert logs["a" := 1] == map["z" := z, "a" := 1, "b" := b];
    assert logs["b" := 1] == map["z" := z, "a" := a, "b" := 1];
  }

  lemma Writes()
    ensures Leads(Third(0, 0, 0), Write("z", 1), Third(1, 0, 0))
    ensures Leads(Third(1, 0, 0), Write("a", 1), Third(1, 1, 0))
    ensures Leads(Third(1, 1, 0), Write("b", 1), Third(1, 1, 1))
  {
    hide Leads;
    WriteLeads(Third(0, 0, 0), "z");
    WriteLeads(Third(1, 0, 0), "a");
    WriteLeads(Third(1, 1, 0), "b");
    OneMore(0, 0, 0);
    OneMore(1, 0, 0);
    OneMore(1, 1, 0);
  }

  /** All three terminals then write their full allowance. */
  lemma Filled(start: seq<Step>) returns (steps: seq<Step>)
    requires IsRun(CFG, Installed(), start) && Run(Installed(), start) == Second(map["b" := Unsaved], NotReserving)
    ensures start <= steps && IsRun(CFG, Installed(), steps) && Run(Installed(), steps) == Third(1, 1, 1)
  {
    hide Run, IsRun, Enabled, Apply, Third, Second;
    LaunchLeads();
    Writes();
    steps := Then(start, Launch("b"), Third(0, 0, 0));
    steps := Then(steps, Write("z", 1), Third(1, 0, 0));
    steps := Then(steps, Write("a", 1), Third(1, 1, 0));
    steps := Then(steps, Write("b", 1), Third(1, 1, 1));
  }

  lemma ThreeStored(t: State)
    requires t == Third(1, 1, 1)
    ensures |Occupied(t)| == 3 && Stored(t, Tracked(t)) == 3
  {
    hide Stored;
    assert Occupied(t) == {"z", "a", "b"} && Tracked(t) == {"z", "a", "b"};
    StoredWithout(t, {"z", "a", "b"}, "z");
    assert {"z", "a", "b"} - {"z"} == {"a", "b"};
    StoredWithout(t, {"a", "b"}, "a");
    assert {"a", "b"} - {"a"} == {"b"};
    StoredWithout(t, {"b"}, "b");
    assert {"b"} - {"b"} == {};
    NoneStored(t);
  }

  lemma NoneStored(t: State)
    ensures Stored(t, {}) == 0
  {
  }

  /** Neither the listing nor the count sees that open, and the reservation is granted: more
      terminals run and more bytes are stored than the limits allow, by one session. */
  lemma LimitsCanBeExceeded() returns (before: seq<Step>, steps: seq<Step>)
    ensures before + [Count] <= steps && IsRun(CFG, Installed(), steps)
    ensures Missed(Run(Installed(), before)) == {"a"}
    ensures var t := Run(Installed(), steps);
            |Occupied(t)| == Maximum(CFG) + 1 && Stored(t, Tracked(t)) == CFG.budget.value + CFG.cap
  {
    hide Run, IsRun, Stored, Occupied;
    before := SavedMeanwhile();
    steps := CountedWithout(before);
    steps := Filled(steps);
    ThreeStored(Third(1, 1, 1));
  }
}
