/** Every run of opens, closes and purges beside a reservation that lists the sessions,
    probes them, counts them and reads their logs in turn: how far what is reserved, running
    and stored stays within the limits of Admission. */
module AdmissionRuns {
  import opened Admission

  type Id = string

  /** An open between its reservation and its release: before its row is saved, after, or
      given up before it was saved. */
  datatype Stage = Unsaved | Saved | Abandoned

  /** The one reservation under way: the sessions it listed and what it has seen of each so
      far, and, once it has counted, the number of pending opens at that moment. */
  datatype Reservation =
    | NotReserving
    | Looking(order: seq<Id>, listed: seq<Listed>, probed: set<nat>)
    | Tallying(order: seq<Id>, listed: seq<Listed>, counted: nat, done: nat)

  datatype State = State(
    rows: map<Id, bool>, // closed?
    logs: map<Id, nat>, // bytes in each session directory
    running: set<Id>, // live tmux sessions
    openers: map<Id, Stage>,
    pending: int,
    reservation: Reservation)

  predicate IsOpen(s: State, id: Id) { id in s.rows && !s.rows[id] }

  predicate IsClosed(s: State, id: Id) { id in s.rows && s.rows[id] }

  predicate IsUnsaved(s: State, id: Id) { id in s.openers && s.openers[id] == Unsaved }

  function LogBytes(s: State, id: Id): nat { if id in s.logs then s.logs[id] else 0 }

  function LogOf(s: State, id: Id): Inventory { if id in s.logs then Bytes(s.logs[id]) else NoLog }

  /** store.list(): every row once, in some order; nothing else of a session is known yet. */
  function Snapshot(s: State, order: seq<Id>): seq<Listed> {
    seq(|order|, i requires 0 <= i < |order| => Listed(IsClosed(s, order[i]), false, NoLog))
  }

  predicate Distinct(order: seq<Id>) {
    order == [] || (order[|order| - 1] !in order[..|order| - 1] && Distinct(order[..|order| - 1]))
  }

  function Elements(order: seq<Id>): set<Id> { set id | id in order }

  datatype Step =
    | List(order: seq<Id>)
    | Probe(index: nat)
    | Count
    | Inspect
    | Refuse
    | Grant(id: Id)
    | Launch(id: Id)
    | Save(id: Id)
    | Fail(id: Id, killed: bool, removed: bool)
    | Release(id: Id)
    | Write(id: Id, size: nat)
    | Die(id: Id)
    | Close(id: Id)
    | Purge(id: Id, removed: bool)
    | Restart

  /** When each step can be taken. One reservation at a time, and no purge beside it; it is
      granted when Admits says so of what it has seen; ids are fresh; the capture stops at the
      per-session cap, and nothing writes to the log of a closed session; a dead tmux session
      does not come back. */
  predicate Enabled(config: Config, s: State, step: Step) {
    match step
    case List(order) => s.reservation.NotReserving? && Distinct(order) && Elements(order) == s.rows.Keys
    case Probe(index) =>
      s.reservation.Looking? && index < |s.reservation.order| && index !in s.reservation.probed
    case Count => Ready(s) && s.pending >= 0 && Active(s.reservation.listed) + s.pending < Maximum(config)
    case Inspect => s.reservation.Tallying? && s.reservation.done < |s.reservation.order|
    case Refuse => !s.reservation.NotReserving?
    case Grant(id) =>
      && id !in s.rows && id !in s.openers && id !in s.logs && id !in s.running
      && s.reservation.Tallying? && s.reservation.done == |s.reservation.order|
      && WithinBudget(config, s.reservation.listed, s.reservation.counted)
    case Launch(id) => IsUnsaved(s, id)
    case Save(id) => IsUnsaved(s, id)
    case Fail(id, _, _) => id in s.openers && s.openers[id] != Abandoned
    case Release(id) => id in s.openers && s.openers[id] != Unsaved
    case Write(id, size) => !IsClosed(s, id) && LogBytes(s, id) <= size <= config.cap
    case Die(id) => true
    case Close(id) => id in s.rows
    case Purge(id, _) => IsClosed(s, id) && s.reservation.NotReserving?
    case Restart => true
  }

  /** Every session has been probed, and the reservation is about to count. */
  predicate Ready(s: State) {
    s.reservation.Looking? && forall i: nat | i < |s.reservation.order| :: i in s.reservation.probed
  }

  /** What a reservation has learned after its next step. */
  function Advance(s: State, step: Step): Reservation {
    match (s.reservation, step)
    case (NotReserving, List(order)) => Looking(order, Snapshot(s, order), {})
    case (Looking(order, listed, probed), Probe(i)) =>
      if i < |listed| && i < |order|
      then Looking(order, listed[i := listed[i].(alive := !listed[i].closed && order[i] in s.running)], probed + {i})
      else s.reservation
    case (Looking(order, listed, _), Count) => Tallying(order, listed, if s.pending < 0 then 0 else s.pending, 0)
    case (Tallying(order, listed, counted, done), Inspect) =>
      if done < |listed| && done < |order|
      then Tallying(order, listed[done := listed[done].(log := Read(s, order[done], listed[done]))], counted, done + 1)
      else s.reservation
    case _ => NotReserving
  }

  /** Only the logs of sessions listed as closed are read. */
  function Read(s: State, id: Id, listed: Listed): Inventory { if listed.closed then LogOf(s, id) else NoLog }

  function Without(logs: map<Id, nat>, id: Id, removed: bool): map<Id, nat> { if removed then logs - {id} else logs }

  function Apply(s: State, step: Step): State {
    match step
    case Grant(id) => s.(openers := s.openers[id := Unsaved], pending := s.pending + 1, reservation := NotReserving)
    case Launch(id) => s.(running := s.running + {id}, logs := s.logs[id := LogBytes(s, id)])
    case Save(id) => s.(rows := s.rows[id := false], openers := s.openers[id := Saved])
    // A save can fail after its row was inserted: then the row stays.
    case Fail(id, killed, removed) =>
      s.(running := if killed then s.running - {id} else s.running,
         logs := Without(s.logs, id, removed),
         openers := s.openers[id := Abandoned])
    case Release(id) => s.(openers := s.openers - {id}, pending := s.pending - 1)
    case Write(id, size) => if id in s.logs then s.(logs := s.logs[id := size]) else s
    case Die(id) => s.(running := s.running - {id})
    case Close(id) => s.(running := s.running - {id}, rows := s.rows[id := true])
    case Purge(id, removed) => s.(rows := s.rows - {id}, logs := Without(s.logs, id, removed))
    case Restart => s.(openers := map[], pending := 0, reservation := NotReserving)
    case _ => s.(reservation := Advance(s, step))
  }

  ghost predicate IsRun(config: Config, s: State, steps: seq<Step>)
    decreases |steps|
  {
    steps == [] || (Enabled(config, s, steps[0]) && IsRun(config, Apply(s, steps[0]), steps[1..]))
  }

  function Run(s: State, steps: seq<Step>): State
    decreases |steps|
  {
    if steps == [] then s else Run(Apply(s, steps[0]), steps[1..])
  }

  // ---------- sums over sessions ----------

  /** What a session holds of the budget: its full allowance while it may still write,
      its bytes once it is closed. */
  function Charge(config: Config, s: State, id: Id): nat
    requires config.cap >= 0
  {
    if IsClosed(s, id) then LogBytes(s, id)
    else if IsOpen(s, id) || IsUnsaved(s, id) then config.cap
    else 0
  }

  ghost function Total(config: Config, s: State, ids: set<Id>): nat
    requires config.cap >= 0
  {
    if ids == {} then 0
    else
      var id :| id in ids;
      Charge(config, s, id) + Total(config, s, ids - {id})
  }

  ghost function Stored(s: State, ids: set<Id>): nat {
    if ids == {} then 0
    else
      var id :| id in ids;
      LogBytes(s, id) + Stored(s, ids - {id})
  }

  lemma {:induction false} TotalWithout(config: Config, s: State, ids: set<Id>, id: Id)
    requires config.cap >= 0 && id in ids
    ensures Total(config, s, ids) == Charge(config, s, id) + Total(config, s, ids - {id})
  {
    var first :| first in ids && Total(config, s, ids) == Charge(config, s, first) + Total(config, s, ids - {first});
    if first != id {
      TotalWithout(config, s, ids - {first}, id);
      TotalWithout(config, s, ids - {id}, first);
      assert ids - {first} - {id} == ids - {id} - {first};
    }
  }

  lemma {:induction false} TotalAtMost(config: Config, s: State, t: State, ids: set<Id>)
    requires config.cap >= 0 && forall id | id in ids :: Charge(config, t, id) <= Charge(config, s, id)
    ensures Total(config, t, ids) <= Total(config, s, ids)
  {
    if ids != {} {
      var id :| id in ids;
      TotalAtMost(config, s, t, ids - {id});
      TotalWithout(config, s, ids, id);
      TotalWithout(config, t, ids, id);
    }
  }

  lemma {:induction false} TotalOfMore(config: Config, s: State, ids: set<Id>, more: set<Id>)
    requires config.cap >= 0 && ids <= more && forall id | id in more - ids :: Charge(config, s, id) == 0
    ensures Total(config, s, more) == Total(config, s, ids)
    decreases |more|
  {
    if id :| id in more && id !in ids {
      TotalWithout(config, s, more, id);
      TotalOfMore(config, s, ids, more - {id});
    } else {
      assert ids == more;
    }
  }

  /** The full allowance of `n` sessions. */
  function Allowance(n: nat, cap: nat): nat { if n == 0 then 0 else Allowance(n - 1, cap) + cap }

  lemma {:induction false} AllowanceIs(n: nat, cap: nat)
    ensures Allowance(n, cap) == n * cap
  {
    if n > 0 {
      AllowanceIs(n - 1, cap);
    }
  }

  lemma {:induction false} AllowanceAdd(m: nat, n: nat, cap: nat)
    ensures Allowance(m + n, cap) == Allowance(m, cap) + Allowance(n, cap)
  {
    if n > 0 {
      AllowanceAdd(m, n - 1, cap);
    }
  }

  lemma {:induction false} TotalBounded(config: Config, s: State, ids: set<Id>)
    requires config.cap >= 0 && forall id | id in ids :: Charge(config, s, id) <= config.cap
    ensures Total(config, s, ids) <= Allowance(|ids|, config.cap)
  {
    if ids != {} {
      var id :| id in ids;
      TotalWithout(config, s, ids, id);
      TotalBounded(config, s, ids - {id});
    }
  }

  lemma {:induction false} StoredAtMost(config: Config, s: State, ids: set<Id>)
    requires config.cap >= 0 && forall id | id in ids :: LogBytes(s, id) <= Charge(config, s, id)
    ensures Stored(s, ids) <= Total(config, s, ids)
  {
    if ids != {} {
      var id :| id in ids && Stored(s, ids) == LogBytes(s, id) + Stored(s, ids - {id});
      TotalWithout(config, s, ids, id);
      StoredAtMost(config, s, ids - {id});
    }
  }

  // ---------- what every step keeps ----------

  predicate Configured(config: Config) { config.budget.Some? && config.budget.value >= 1 && config.cap >= 1 }

  function Ids(s: State): set<Id> { s.rows.Keys + s.openers.Keys }

  function RunningOpen(s: State, ids: set<Id>): set<Id> { set id | id in ids && IsOpen(s, id) && id in s.running }

  function UnsavedIds(s: State): set<Id> { set id | id in s.openers && IsUnsaved(s, id) }

  /** The places that count against the session limit. */
  function Occupied(s: State): set<Id> {
    RunningOpen(s, s.rows.Keys) + UnsavedIds(s)
  }

  predicate Counted(s: State) { s.pending == |s.openers| }

  predicate UnsavedApart(s: State, id: Id) { IsUnsaved(s, id) ==> id !in s.rows }

  predicate LogCapped(config: Config, s: State, id: Id) { LogBytes(s, id) <= config.cap }

  ghost predicate Rowwise(config: Config, s: State) {
    && Counted(s)
    && (forall id :: UnsavedApart(s, id))
    && (forall id :: LogCapped(config, s, id))
  }

  /** What a reservation has listed as closed is not open again, no session it has listed is
      still to be saved, and one it has found dead stays dead. */
  predicate Past(s: State, id: Id, listed: Listed, probed: bool) {
    && !IsUnsaved(s, id) && (listed.closed ==> !IsOpen(s, id))
    && (probed && !listed.closed && !listed.alive ==> id !in s.running)
  }

  ghost predicate AllPast(s: State, order: seq<Id>, listed: seq<Listed>, probed: set<nat>)
    requires |order| == |listed|
  {
    forall i | 0 <= i < |order| :: Past(s, order[i], listed[i], i in probed)
  }

  predicate AllUnread(listed: seq<Listed>, done: nat) { forall i | done <= i < |listed| :: listed[i].log == NoLog }

  /** What Committed computes, by addition. */
  function Figure(config: Config, listed: seq<Listed>, pending: nat): nat
    requires config.cap >= 0
  {
    Allowance(StillOpen(listed) + pending + 1, config.cap) + RetainedBytes(listed)
  }

  /** Sessions listed as closed whose logs are still to be read. */
  function Unread(order: seq<Id>, listed: seq<Listed>, done: nat): set<Id>
    requires |order| == |listed|
  {
    set i | done <= i < |order| && listed[i].closed :: order[i]
  }

  /** What a reservation may rely on while the rest of the world goes on. `slips` is how many
      sessions its count may have missed. */
  ghost predicate ReservationInv(config: Config, s: State, slips: nat)
    requires Configured(config)
  {
    match s.reservation
    case NotReserving => true
    case Looking(order, listed, probed) =>
      |order| == |listed| && AllUnread(listed, 0) && AllPast(s, order, listed, probed)
    case Tallying(order, listed, counted, done) =>
      && done <= |order| == |listed|
      && AllUnread(listed, done) && Readable(listed) && AllPast(s, order, listed, {})
      && |Occupied(s)| < Maximum(config) + slips
      && Total(config, s, Ids(s) - Unread(order, listed, done)) + config.cap <=
         Figure(config, listed, counted) + Allowance(slips, config.cap)
  }

  ghost predicate Limited(config: Config, s: State, slips: nat)
    requires Configured(config)
  {
    && Total(config, s, Ids(s)) <= config.budget.value + Allowance(slips, config.cap)
    && |Occupied(s)| <= Maximum(config) + slips
  }

  /** The limits, exceeded by at most `slips` sessions. */
  ghost predicate Inv(config: Config, s: State, slips: nat)
    requires Configured(config)
  {
    Rowwise(config, s) && Limited(config, s, slips) && ReservationInv(config, s, slips)
  }

  /** Sessions that a count does not see: saved and released since the listing. */
  function Missed(s: State): set<Id> {
    if s.reservation.Looking?
    then set id | id in s.rows && id !in s.reservation.order && id !in s.openers
    else {}
  }

  lemma TotalSame(config: Config, s: State, t: State, ids: set<Id>)
    requires config.cap >= 0 && forall id | id in ids :: Charge(config, t, id) == Charge(config, s, id)
    ensures Total(config, t, ids) == Total(config, s, ids)
  {
    TotalAtMost(config, s, t, ids);
    TotalAtMost(config, t, s, ids);
  }

  /** No step but a grant takes more of the budget, whatever part of it is looked at. */
  lemma NotMore(config: Config, s: State, t: State, except: set<Id>)
    requires config.cap >= 0 && forall id | id in Ids(t) :: Charge(config, t, id) <= Charge(config, s, id)
    ensures Total(config, t, Ids(t) - except) <= Total(config, s, Ids(s) - except)
  {
    var both := Ids(s) + Ids(t) - except;
    TotalOfMore(config, s, Ids(s) - except, both);
    TotalOfMore(config, t, Ids(t) - except, both);
    TotalAtMost(config, s, t, both);
  }

  lemma {:induction false} TotalSplit(config: Config, s: State, ids: set<Id>, part: set<Id>)
    requires config.cap >= 0 && part <= ids
    ensures Total(config, s, ids) == Total(config, s, part) + Total(config, s, ids - part)
    decreases |part|
  {
    if part == {} {
      assert ids - part == ids;
    } else {
      var id :| id in part;
      TotalSplit(config, s, ids - {id}, part - {id});
      TotalWithout(config, s, ids, id);
      TotalWithout(config, s, part, id);
      assert (ids - {id}) - (part - {id}) == ids - part;
    }
  }

  lemma SmallerSet(a: set<Id>, b: set<Id>)
    requires a <= b
    ensures |a| <= |b|
  {
    assert b == a + (b - a);
  }

  lemma FigureIsCommitted(config: Config, sessions: seq<Listed>, pending: nat)
    requires config.cap >= 0
    ensures Committed(config, sessions, pending) == Figure(config, sessions, pending)
  {
    AllowanceIs(StillOpen(sessions) + pending + 1, config.cap);
  }

  lemma UnionSize(a: set<Id>, b: set<Id>)
    ensures |a + b| <= |a| + |b|
  {
    assert a + b == a + (b - a);
    SmallerSet(b - a, b);
  }

  // ---------- what a reservation has seen ----------

  function OpenIds(order: seq<Id>, listed: seq<Listed>): set<Id>
    requires |order| == |listed|
  {
    set i | 0 <= i < |order| && !listed[i].closed :: order[i]
  }

  function AliveIds(order: seq<Id>, listed: seq<Listed>): set<Id>
    requires |order| == |listed|
  {
    set i | 0 <= i < |order| && !listed[i].closed && listed[i].alive :: order[i]
  }

  lemma SeenLast(order: seq<Id>, listed: seq<Listed>)
    requires |order| == |listed| >= 1
    ensures var n := |order| - 1;
            && OpenIds(order, listed) ==
               OpenIds(order[..n], listed[..n]) + (if listed[n].closed then {} else {order[n]})
            && AliveIds(order, listed) ==
               AliveIds(order[..n], listed[..n]) + (if !listed[n].closed && listed[n].alive then {order[n]} else {})
  {
  }

  lemma {:induction false} SeenSizes(order: seq<Id>, listed: seq<Listed>)
    requires |order| == |listed|
    ensures |OpenIds(order, listed)| <= StillOpen(listed) && |AliveIds(order, listed)| <= Active(listed)
  {
    hide OpenIds, AliveIds;
    if order == [] {
      NoneSeen();
    } else {
      var n := |order| - 1;
      SeenSizes(order[..n], listed[..n]);
      SeenLast(order, listed);
      UnionSize(OpenIds(order[..n], listed[..n]), if listed[n].closed then {} else {order[n]});
      UnionSize(AliveIds(order[..n], listed[..n]), if !listed[n].closed && listed[n].alive then {order[n]} else {});
    }
  }

  lemma NoneSeen()
    ensures OpenIds([], []) == {} && AliveIds([], []) == {}
  {
  }

  /** Reading one log adds what it retains, and changes nothing else of the figure. */
  lemma {:induction false} ReadAdds(listed: seq<Listed>, i: nat, log: Inventory)
    requires i < |listed| && listed[i].log == NoLog
    ensures var read := listed[i := listed[i].(log := log)];
            && StillOpen(read) == StillOpen(listed)
            && RetainedBytes(read) == RetainedBytes(listed) + Retained(read[i])
  {
    var read, n := listed[i := listed[i].(log := log)], |listed| - 1;
    if i == n {
      assert read[..n] == listed[..n];
    } else {
      ReadAdds(listed[..n], i, log);
      assert read[..n] == listed[..n][i := listed[i].(log := log)];
    }
  }

  lemma {:induction false} NothingRead(listed: seq<Listed>)
    requires forall i | 0 <= i < |listed| :: listed[i].log == NoLog
    ensures RetainedBytes(listed) == 0
  {
    if listed != [] {
      NothingRead(listed[..|listed| - 1]);
    }
  }

  // ---------- the steps of a reservation ----------

  /** A step of a reservation other than its grant changes nothing outside it. */
  lemma OnlyReserves(config: Config, s: State, t: State, slips: nat)
    requires Configured(config) && t == s.(reservation := t.reservation)
    ensures Rowwise(config, s) ==> Rowwise(config, t)
    ensures Limited(config, s, slips) ==> Limited(config, t, slips)
  {
    SameTotal(config, s, t, Ids(s));
    SameOccupied(s, t);
    if Rowwise(config, s) {
      forall id ensures UnsavedApart(t, id) && LogCapped(config, t, id) {
        assert UnsavedApart(s, id) && LogCapped(config, s, id);
      }
    }
  }

  lemma SameOccupied(s: State, t: State)
    requires t == s.(reservation := t.reservation)
    ensures Occupied(t) == Occupied(s)
  {
    assert RunningOpen(t, t.rows.Keys) == RunningOpen(s, s.rows.Keys) && UnsavedIds(t) == UnsavedIds(s);
  }

  lemma SameTotal(config: Config, s: State, t: State, ids: set<Id>)
    requires config.cap >= 0 && t == s.(reservation := t.reservation)
    ensures Total(config, t, ids) == Total(config, s, ids)
  {
    TotalSame(config, s, t, ids);
  }

  lemma SamePast(s: State, t: State, order: seq<Id>, listed: seq<Listed>, probed: set<nat>)
    requires |order| == |listed| && AllPast(s, order, listed, probed) && t == s.(reservation := t.reservation)
    ensures AllPast(t, order, listed, probed)
    ensures AllPast(t, order, listed, {})
  {
    forall i | 0 <= i < |order|
      ensures Past(t, order[i], listed[i], i in probed) && Past(t, order[i], listed[i], false)
    {
      assert Past(s, order[i], listed[i], i in probed);
    }
  }

  lemma PlaceIsSeen(s: State, id: Id)
    requires Ready(s) && |s.reservation.order| == |s.reservation.listed|
    requires AllPast(s, s.reservation.order, s.reservation.listed, s.reservation.probed) && id in Occupied(s)
    ensures id in AliveIds(s.reservation.order, s.reservation.listed) + s.openers.Keys + Missed(s)
  {
    var Looking(order, listed, probed) := s.reservation;
    if id in order {
      var i :| 0 <= i < |order| && order[i] == id;
      assert Past(s, order[i], listed[i], i in probed);
    }
  }

  /** A count sees every place that is taken, but for the sessions it has missed. */
  lemma CountSeesPlaces(s: State, slips: nat)
    requires Ready(s) && Counted(s) && |s.reservation.order| == |s.reservation.listed| && |Missed(s)| <= slips
    requires AllPast(s, s.reservation.order, s.reservation.listed, s.reservation.probed)
    ensures |Occupied(s)| <= Active(s.reservation.listed) + s.pending + slips
  {
    hide Occupied, AliveIds, OpenIds, Missed, AllPast, Active, StillOpen;
    var Looking(order, listed, _) := s.reservation;
    var alive := AliveIds(order, listed);
    SeenSizes(order, listed);
    forall id | id in Occupied(s) ensures id in alive + s.openers.Keys + Missed(s) { PlaceIsSeen(s, id); }
    SmallerSet(Occupied(s), alive + s.openers.Keys + Missed(s));
    UnionSize(alive + s.openers.Keys, Missed(s));
    UnionSize(alive, s.openers.Keys);
  }

  lemma HeldIsSeen(s: State, id: Id)
    requires Ready(s) && |s.reservation.order| == |s.reservation.listed|
    requires id in Ids(s) && id !in Unread(s.reservation.order, s.reservation.listed, 0)
    ensures id in OpenIds(s.reservation.order, s.reservation.listed) + s.openers.Keys + Missed(s)
  {
    if id in s.reservation.order {
      var i :| 0 <= i < |s.reservation.order| && s.reservation.order[i] == id;
    }
  }

  /** And everything held, but for them and for the logs it is still to read. */
  lemma CountSeesHeld(s: State, slips: nat)
    requires Ready(s) && Counted(s) && |s.reservation.order| == |s.reservation.listed| && |Missed(s)| <= slips
    ensures |Ids(s) - Unread(s.reservation.order, s.reservation.listed, 0)| <=
            StillOpen(s.reservation.listed) + s.pending + slips
  {
    hide Missed, OpenIds, AliveIds, Active, Unread, StillOpen, Ids;
    var order, listed := s.reservation.order, s.reservation.listed;
    var held, open := Ids(s) - Unread(order, listed, 0), OpenIds(order, listed);
    SeenSizes(order, listed);
    forall id | id in held ensures id in open + s.openers.Keys + Missed(s) { HeldIsSeen(s, id); }
    SmallerSet(held, open + s.openers.Keys + Missed(s));
    UnionSize(open + s.openers.Keys, Missed(s));
    UnionSize(open, s.openers.Keys);
  }

  lemma CountSeesBytes(config: Config, s: State, slips: nat)
    requires config.cap >= 0 && Rowwise(config, s) && Ready(s)
    requires |s.reservation.order| == |s.reservation.listed| && |Missed(s)| <= slips
    ensures s.pending >= 0
    ensures var Looking(order, listed, _) := s.reservation;
            Total(config, s, Ids(s) - Unread(order, listed, 0)) + config.cap <=
            Allowance(StillOpen(listed) + s.pending + 1, config.cap) + Allowance(slips, config.cap)
  {
    hide Rowwise, Total, Charge, Missed, Unread, StillOpen, Ids, Allowance;
    RowwiseCounts(config, s);
    CountSeesHeld(s, slips);
    var held := Ids(s) - Unread(s.reservation.order, s.reservation.listed, 0);
    forall id | id in held ensures Charge(config, s, id) <= config.cap { ChargeCapped(config, s, id); }
    TotalBounded(config, s, held);
    AllowanceCovers(|held|, StillOpen(s.reservation.listed) + s.pending, slips, config.cap);
  }

  lemma AllowanceCovers(held: nat, n: nat, slips: nat, cap: nat)
    requires held <= n + slips
    ensures Allowance(held, cap) + cap <= Allowance(n + 1, cap) + Allowance(slips, cap)
  {
    AllowanceAdd(held, n + slips - held, cap);
    AllowanceAdd(n, slips, cap);
  }

  lemma ChargeCapped(config: Config, s: State, id: Id)
    requires config.cap >= 0 && Rowwise(config, s)
    ensures Charge(config, s, id) <= config.cap
  {
    assert LogCapped(config, s, id);
  }

  lemma RowwiseCounts(config: Config, s: State)
    requires Rowwise(config, s)
    ensures Counted(s)
  {
  }

  lemma CountApplies(config: Config, s: State)
    requires Enabled(config, s, Count)
    ensures Ready(s) && s.pending >= 0 && Active(s.reservation.listed) + s.pending < Maximum(config)
    ensures Apply(s, Count) == s.(reservation := Tallying(s.reservation.order, s.reservation.listed, s.pending, 0))
  {
  }

  lemma CountKeepsInv(config: Config, s: State, slips: nat)
    requires Configured(config) && Inv(config, s, slips) && Enabled(config, s, Count) && |Missed(s)| <= slips
    ensures Inv(config, Apply(s, Count), slips)
  {
    hide Enabled, Apply, Rowwise, Limited, Total, Occupied, AllPast, Active, StillOpen, Missed, Unread, Allowance;
    CountApplies(config, s);
    var Looking(order, listed, probed) := s.reservation;
    var t := Apply(s, Count);
    RowwiseCounts(config, s);
    OnlyReserves(config, s, t, slips);
    SamePast(s, t, order, listed, probed);
    SameOccupied(s, t);
    SameTotal(config, s, t, Ids(s) - Unread(order, listed, 0));
    CountSeesPlaces(s, slips);
    CountSeesBytes(config, s, slips);
    NothingRead(listed);
    assert Readable(listed);
  }

  lemma LogRead(config: Config, s: State, order: seq<Id>, listed: seq<Listed>, counted: nat, done: nat)
    requires config.cap >= 0 && done < |order| == |listed| && listed[done].log == NoLog
    requires Past(s, order[done], listed[done], false)
    ensures var read := listed[done := listed[done].(log := Read(s, order[done], listed[done]))];
            Total(config, s, Ids(s) - Unread(order, read, done + 1)) - Figure(config, read, counted) <=
            Total(config, s, Ids(s) - Unread(order, listed, done)) - Figure(config, listed, counted)
  {
    var id := order[done];
    var read := listed[done := listed[done].(log := Read(s, id, listed[done]))];
    var before, after := Ids(s) - Unread(order, listed, done), Ids(s) - Unread(order, read, done + 1);
    ReadAdds(listed, done, Read(s, id, listed[done]));
    assert before <= after && after - before <= {id} && (!listed[done].closed ==> after == before);
    if id in after && id !in before {
      TotalWithout(config, s, after, id);
      assert after - {id} == before;
    } else {
      assert after == before;
    }
  }

  lemma InspectKeepsInv(config: Config, s: State, slips: nat)
    requires Configured(config) && Inv(config, s, slips) && Enabled(config, s, Inspect)
    ensures Inv(config, Apply(s, Inspect), slips)
  {
    hide Rowwise, Limited, Total, Occupied, Past, Figure, Unread;
    var Tallying(order, listed, counted, done) := s.reservation;
    var t := Apply(s, Inspect);
    var read := t.reservation.listed;
    OnlyReserves(config, s, t, slips);
    SameOccupied(s, t);
    LogRead(config, s, order, listed, counted, done);
    SameTotal(config, s, t, Ids(s) - Unread(order, read, done + 1));
    assert AllPast(s, order, read, {}) by {
      forall i | 0 <= i < |order| ensures Past(s, order[i], read[i], false) {
        assert Past(s, order[i], listed[i], i in {});
        PastOfStatus(s, order[i], listed[i], read[i]);
      }
    }
    SamePast(s, t, order, read, {});
  }

  lemma PastOfStatus(s: State, id: Id, listed: Listed, read: Listed)
    requires Past(s, id, listed, false) && read.closed == listed.closed
    ensures Past(s, id, read, false)
  {
  }

  lemma LooksKeepInv(config: Config, s: State, step: Step, slips: nat)
    requires Configured(config) && Inv(config, s, slips) && Enabled(config, s, step)
    requires step.List? || step.Probe? || step.Refuse?
    ensures Inv(config, Apply(s, step), slips)
  {
    hide Limited;
    var t := Apply(s, step);
    OnlyReserves(config, s, t, slips);
    if step.List? {
      forall i | 0 <= i < |step.order| ensures Past(t, step.order[i], t.reservation.listed[i], false) {
        assert step.order[i] in Elements(step.order);
        assert UnsavedApart(s, step.order[i]);
      }
    } else if step.Probe? {
      var Looking(order, listed, probed) := s.reservation;
      forall i | 0 <= i < |order| ensures Past(t, order[i], t.reservation.listed[i], i in t.reservation.probed) {
        assert Past(s, order[i], listed[i], i in probed);
      }
    }
  }

  lemma GrantTotal(config: Config, s: State, id: Id)
    requires config.cap >= 0 && id !in s.rows && id !in s.openers
    ensures var t := Apply(s, Grant(id)); Total(config, t, Ids(t)) == config.cap + Total(config, s, Ids(s))
  {
    var t := Apply(s, Grant(id));
    assert Ids(t) - {id} == Ids(s);
    TotalWithout(config, t, Ids(t), id);
    TotalSame(config, s, t, Ids(s));
  }

  lemma GrantOccupies(s: State, id: Id)
    requires id !in s.openers
    ensures Occupied(Apply(s, Grant(id))) == Occupied(s) + {id}
  {
    var t := Apply(s, Grant(id));
    assert RunningOpen(t, t.rows.Keys) == RunningOpen(s, s.rows.Keys);
    assert UnsavedIds(t) == UnsavedIds(s) + {id};
  }

  lemma GrantKeepsInv(config: Config, s: State, id: Id, slips: nat)
    requires Configured(config) && Inv(config, s, slips) && Enabled(config, s, Grant(id))
    ensures Inv(config, Apply(s, Grant(id)), slips)
  {
    hide Rowwise, Total, Occupied, Figure, Committed;
    var Tallying(order, listed, counted, done) := s.reservation;
    assert Unread(order, listed, done) == {} && Ids(s) - {} == Ids(s);
    FigureIsCommitted(config, listed, counted);
    GrantTotal(config, s, id);
    GrantOccupies(s, id);
    UnionSize(Occupied(s), {id});
    RowwiseKept(config, s, Grant(id));
  }

  // ---------- every other step ----------

  lemma ChargeFalls(config: Config, s: State, step: Step, id: Id)
    requires config.cap >= 0 && Enabled(config, s, step) && !step.Grant?
    requires UnsavedApart(s, id) && LogCapped(config, s, id)
    ensures Charge(config, Apply(s, step), id) <= Charge(config, s, id)
  {
  }

  lemma OccupiedFalls(config: Config, s: State, step: Step, id: Id)
    requires Enabled(config, s, step) && !step.Grant?
    ensures id in Occupied(Apply(s, step)) ==> id in Occupied(s)
  {
  }

  /** Who holds a slot changes with a grant, a release and a restart only. */
  function Holding(s: State, step: Step): set<Id> {
    if step.Grant? then s.openers.Keys + {step.id}
    else if step.Release? then s.openers.Keys - {step.id}
    else if step.Restart? then {}
    else s.openers.Keys
  }

  lemma HoldersAfter(config: Config, s: State, step: Step)
    requires Enabled(config, s, step)
    ensures Apply(s, step).openers.Keys == Holding(s, step)
  {
  }

  lemma CountKept(config: Config, s: State, step: Step)
    requires Enabled(config, s, step) && Counted(s)
    ensures Counted(Apply(s, step))
  {
    HoldersAfter(config, s, step);
    assert |s.openers| == |s.openers.Keys| && |Apply(s, step).openers| == |Holding(s, step)|;
  }

  lemma RowwiseKept(config: Config, s: State, step: Step)
    requires Enabled(config, s, step) && config.cap >= 0 && Rowwise(config, s)
    ensures Rowwise(config, Apply(s, step))
  {
    CountKept(config, s, step);
    forall id ensures UnsavedApart(Apply(s, step), id) && LogCapped(config, Apply(s, step), id) {
      assert UnsavedApart(s, id) && LogCapped(config, s, id);
    }
  }

  predicate Reserves(step: Step) {
    step.List? || step.Probe? || step.Count? || step.Inspect? || step.Refuse? || step.Grant?
  }

  lemma PastKept(config: Config, s: State, step: Step, id: Id, listed: Listed, probed: bool)
    requires Enabled(config, s, step) && !Reserves(step) && Past(s, id, listed, probed)
    ensures Past(Apply(s, step), id, listed, probed)
  {
  }

  lemma ReservationKept(config: Config, s: State, step: Step, slips: nat)
    requires Configured(config) && Enabled(config, s, step) && !Reserves(step) && ReservationInv(config, s, slips)
    requires forall id | id in Ids(Apply(s, step)) :: Charge(config, Apply(s, step), id) <= Charge(config, s, id)
    requires |Occupied(Apply(s, step))| <= |Occupied(s)|
    ensures ReservationInv(config, Apply(s, step), slips)
  {
    hide Past, Total, Figure, Occupied, Charge;
    var t := Apply(s, step);
    match s.reservation
    case NotReserving =>
    case Looking(order, listed, probed) =>
      forall i | 0 <= i < |order| ensures Past(t, order[i], listed[i], i in probed) {
        PastKept(config, s, step, order[i], listed[i], i in probed);
      }
    case Tallying(order, listed, counted, done) =>
      forall i | 0 <= i < |order| ensures Past(t, order[i], listed[i], false) {
        PastKept(config, s, step, order[i], listed[i], false);
      }
      NotMore(config, s, t, Unread(order, listed, done));
  }

  /** Every other step only gives back. */
  lemma GivesBack(config: Config, s: State, step: Step)
    requires config.cap >= 0 && Rowwise(config, s) && Enabled(config, s, step) && !Reserves(step)
    ensures forall id | id in Ids(Apply(s, step)) :: Charge(config, Apply(s, step), id) <= Charge(config, s, id)
    ensures |Occupied(Apply(s, step))| <= |Occupied(s)|
  {
    hide Charge, Occupied;
    var t := Apply(s, step);
    forall id | id in Ids(t) ensures Charge(config, t, id) <= Charge(config, s, id) {
      assert UnsavedApart(s, id) && LogCapped(config, s, id);
      ChargeFalls(config, s, step, id);
    }
    forall id | id in Occupied(t) ensures id in Occupied(s) {
      OccupiedFalls(config, s, step, id);
    }
    SmallerSet(Occupied(t), Occupied(s));
  }

  lemma OtherKeepsInv(config: Config, s: State, step: Step, slips: nat)
    requires Configured(config) && Inv(config, s, slips) && Enabled(config, s, step) && !Reserves(step)
    ensures Inv(config, Apply(s, step), slips)
  {
    hide ReservationInv, Rowwise, Charge, Total, Occupied, Enabled;
    var t := Apply(s, step);
    GivesBack(config, s, step);
    NotMore(config, s, t, {});
    assert Ids(s) - {} == Ids(s) && Ids(t) - {} == Ids(t);
    RowwiseKept(config, s, step);
    ReservationKept(config, s, step, slips);
  }

  lemma StepKeepsInv(config: Config, s: State, step: Step, slips: nat)
    requires Configured(config) && Inv(config, s, slips) && Enabled(config, s, step)
    requires step.Count? ==> |Missed(s)| <= slips
    ensures Inv(config, Apply(s, step), slips)
  {
    hide Inv;
    if step.Grant? {
      GrantKeepsInv(config, s, step.id, slips);
    } else if step.Count? {
      CountKeepsInv(config, s, slips);
    } else if step.Inspect? {
      InspectKeepsInv(config, s, slips);
    } else if Reserves(step) {
      LooksKeepInv(config, s, step, slips);
    } else {
      OtherKeepsInv(config, s, step, slips);
    }
  }

  /** No count in the run misses more than `slips` sessions. */
  ghost predicate MissesAtMost(s: State, steps: seq<Step>, slips: nat)
    decreases |steps|
  {
    steps == [] || ((steps[0].Count? ==> |Missed(s)| <= slips) && MissesAtMost(Apply(s, steps[0]), steps[1..], slips))
  }

  /** Over every run the quota and the session limit are exceeded by no more sessions than a
      count has missed: not at all, if none has missed one. */
  lemma {:induction false} RunKeepsInv(config: Config, s: State, steps: seq<Step>, slips: nat)
    requires Configured(config) && Inv(config, s, slips) && IsRun(config, s, steps) && MissesAtMost(s, steps, slips)
    ensures Inv(config, Run(s, steps), slips)
    decreases |steps|
  {
    hide Inv;
    if steps != [] {
      StepKeepsInv(config, s, steps[0], slips);
      RunKeepsInv(config, Apply(s, steps[0]), steps[1..], slips);
    }
  }

  /** The sessions whose directories the quota knows of. */
  function Tracked(s: State): set<Id> {
    s.rows.Keys + UnsavedIds(s)
  }

  lemma WithinLimits(config: Config, s: State, steps: seq<Step>, slips: nat)
    requires Configured(config) && Inv(config, s, slips) && IsRun(config, s, steps) && MissesAtMost(s, steps, slips)
    ensures var t := Run(s, steps);
            && Total(config, t, Ids(t)) <= config.budget.value + slips * config.cap
            && Stored(t, Tracked(t)) <= config.budget.value + slips * config.cap
            && |Occupied(t)| <= Maximum(config) + slips
  {
    RunKeepsInv(config, s, steps, slips);
    AllowanceIs(slips, config.cap);
    var t := Run(s, steps);
    forall id | id in Tracked(t) ensures LogBytes(t, id) <= Charge(config, t, id) {
      assert LogCapped(config, t, id);
    }
    StoredAtMost(config, t, Tracked(t));
    TotalOfMore(config, t, Tracked(t), Ids(t));
  }

  function Installed(): State { State(map[], map[], {}, map[], 0, NotReserving) }

  lemma NewInstallation(config: Config)
    requires Configured(config)
    ensures Inv(config, Installed(), 0)
  {
    var s := Installed();
    assert Ids(s) == {} && Occupied(s) == {};
  }

  // ---------- leaks ----------

  /** Every log on the disk belongs to a session that the quota counts. */
  ghost predicate Covered(s: State) { forall id | id in s.logs :: id in Tracked(s) }

  /** The steps that leave a log which nothing counts: a removal that failed, or a restart
      while an open had not saved its row. */
  ghost predicate Leaks(s: State, step: Step) {
    match step
    case Fail(id, _, removed) => !removed && IsUnsaved(s, id) && id in s.logs
    case Purge(id, removed) => !removed && id in s.logs
    case Restart => exists id :: IsUnsaved(s, id) && id in s.logs
    case _ => false
  }

  lemma CoverKept(config: Config, s: State, step: Step, id: Id)
    requires Enabled(config, s, step) && !Leaks(s, step)
    requires id in s.logs ==> id in Tracked(s)
    ensures id in Apply(s, step).logs ==> id in Tracked(Apply(s, step))
  {
    if step.Restart? && IsUnsaved(s, id) {
      assert id !in s.logs;
    }
  }

  lemma LeaksExactly(config: Config, s: State, step: Step)
    requires Rowwise(config, s) && Covered(s) && Enabled(config, s, step)
    ensures Covered(Apply(s, step)) <==> !Leaks(s, step)
  {
    var t := Apply(s, step);
    if !Leaks(s, step) {
      forall id | id in t.logs ensures id in Tracked(t) {
        CoverKept(config, s, step, id);
      }
    } else if step.Restart? {
      var id :| IsUnsaved(s, id) && id in s.logs;
      assert UnsavedApart(s, id);
      assert id in t.logs && id !in Tracked(t);
    } else {
      assert UnsavedApart(s, step.id);
      assert step.id in t.logs && step.id !in Tracked(t);
    }
  }

  // ---------- runs without leaks ----------

  ghost predicate NoLeaks(s: State, steps: seq<Step>)
    decreases |steps|
  {
    steps == [] || (!Leaks(s, steps[0]) && NoLeaks(Apply(s, steps[0]), steps[1..]))
  }

  ghost predicate AllCovered(s: State, steps: seq<Step>)
    decreases |steps|
  {
    Covered(s) && (steps == [] || AllCovered(Apply(s, steps[0]), steps[1..]))
  }

  /** The quota knows of every log in every state of a run exactly if no step of it leaks. */
  lemma {:induction false} CoveredExactly(config: Config, s: State, steps: seq<Step>)
    requires config.cap >= 0 && Rowwise(config, s) && IsRun(config, s, steps) && Covered(s)
    ensures AllCovered(s, steps) <==> NoLeaks(s, steps)
    decreases |steps|
  {
    hide Rowwise, Covered, Leaks, Apply, Enabled;
    if steps != [] {
      LeaksExactly(config, s, steps[0]);
      RowwiseKept(config, s, steps[0]);
      if Covered(Apply(s, steps[0])) {
        CoveredExactly(config, Apply(s, steps[0]), steps[1..]);
      }
    }
  }

  lemma {:induction false} LastCovered(s: State, steps: seq<Step>)
    requires AllCovered(s, steps)
    ensures Covered(Run(s, steps))
    decreases |steps|
  {
    if steps != [] {
      LastCovered(Apply(s, steps[0]), steps[1..]);
    }
  }

  lemma {:induction false} StoredWithout(s: State, ids: set<Id>, id: Id)
    requires id in ids
    ensures Stored(s, ids) == LogBytes(s, id) + Stored(s, ids - {id})
  {
    var first :| first in ids && Stored(s, ids) == LogBytes(s, first) + Stored(s, ids - {first});
    if first != id {
      StoredWithout(s, ids - {first}, id);
      StoredWithout(s, ids - {id}, first);
      assert ids - {first} - {id} == ids - {id} - {first};
    }
  }

  lemma {:induction false} StoredFewer(s: State, ids: set<Id>, more: set<Id>)
    requires ids <= more
    ensures Stored(s, ids) <= Stored(s, more)
  {
    if ids != {} {
      var id :| id in ids;
      StoredWithout(s, ids, id);
      StoredWithout(s, more, id);
      StoredFewer(s, ids - {id}, more - {id});
    }
  }

  /** After every run in which no step leaks, all the bytes on the disk are within the budget
      and one allowance for each session that a count has missed. */
  lemma EverythingWithinBudget(config: Config, s: State, steps: seq<Step>, slips: nat)
    requires Configured(config) && Inv(config, s, slips) && IsRun(config, s, steps) && MissesAtMost(s, steps, slips)
    requires Covered(s) && NoLeaks(s, steps)
    ensures Stored(Run(s, steps), Run(s, steps).logs.Keys) <= config.budget.value + slips * config.cap
  {
    CoveredExactly(config, s, steps);
    LastCovered(s, steps);
    WithinLimits(config, s, steps, slips);
    var t := Run(s, steps);
    StoredFewer(t, t.logs.Keys, Tracked(t));
  }
}
