/** Opening terminals under a session limit and a transcript budget: reserveOpenSlot, open,
    close and purge of apps/agent/src/tmux.js. A reservation decides on what it has seen of
    the sessions; AdmissionRuns says what may happen while it looks. */
module Admission {
  import opened Results

  datatype Config = Config(terminalMaxActive: nat, budget: Option<int>, cap: int)

  // Math.max(1, Number(terminalMaxActive || 8))
  function Maximum(config: Config): nat { if config.terminalMaxActive == 0 then 8 else config.terminalMaxActive }

  /** At least one terminal; eight when none are configured. */
  lemma MaximumExactly(config: Config)
    ensures config.terminalMaxActive == 0 ==> Maximum(config) == 8
    ensures config.terminalMaxActive >= 1 ==> Maximum(config) == config.terminalMaxActive
  {
  }

  // ---------- the decision ----------

  datatype Inventory = NoLog | Bytes(size: nat) | Invalid

  /** One session as a reservation sees it. */
  datatype Listed = Listed(closed: bool, alive: bool, log: Inventory)

  datatype Refusal = SessionLimit | QuotaInvalid | Quota

  function Active(sessions: seq<Listed>): nat {
    if sessions == [] then 0
    else
      var last := sessions[|sessions| - 1];
      Active(sessions[..|sessions| - 1]) + if !last.closed && last.alive then 1 else 0
  }

  function StillOpen(sessions: seq<Listed>): nat {
    if sessions == [] then 0
    else StillOpen(sessions[..|sessions| - 1]) + if sessions[|sessions| - 1].closed then 0 else 1
  }

  function OpenAt(sessions: seq<Listed>): set<nat> { set i: nat | i < |sessions| && !sessions[i].closed }

  function AliveAt(sessions: seq<Listed>): set<nat> {
    set i: nat | i < |sessions| && !sessions[i].closed && sessions[i].alive
  }

  lemma CountedFront(sessions: seq<Listed>)
    requires sessions != []
    ensures var n := |sessions| - 1;
            && OpenAt(sessions) == OpenAt(sessions[..n]) + (if sessions[n].closed then {} else {n})
            && AliveAt(sessions) ==
               AliveAt(sessions[..n]) + (if !sessions[n].closed && sessions[n].alive then {n} else {})
            && n !in OpenAt(sessions[..n]) && n !in AliveAt(sessions[..n])
  {
  }

  /** What the two counts are: the sessions that are open, and those of them that are alive. */
  lemma {:induction false} CountsExactly(sessions: seq<Listed>)
    ensures StillOpen(sessions) == |OpenAt(sessions)| && Active(sessions) == |AliveAt(sessions)|
  {
    if sessions == [] {
      assert OpenAt(sessions) == {} && AliveAt(sessions) == {};
    } else {
      CountsExactly(sessions[..|sessions| - 1]);
      CountedFront(sessions);
    }
  }

  function Retained(s: Listed): nat { if s.closed && s.log.Bytes? then s.log.size else 0 }

  function RetainedBytes(sessions: seq<Listed>): nat {
    if sessions == [] then 0 else RetainedBytes(sessions[..|sessions| - 1]) + Retained(sessions[|sessions| - 1])
  }

  predicate Readable(sessions: seq<Listed>) {
    forall i | 0 <= i < |sessions| :: sessions[i].closed ==> !sessions[i].log.Invalid?
  }

  /** What a new session would commit: the full allowance of every open and every pending
      one and of the new one, and what closed ones retain. */
  function Committed(config: Config, sessions: seq<Listed>, pending: nat): int {
    (StillOpen(sessions) + pending + 1) * config.cap + RetainedBytes(sessions)
  }

  predicate WithinBudget(config: Config, sessions: seq<Listed>, pending: nat) {
    config.budget.Some? ==>
      config.budget.value >= 1 && config.cap >= 1 && Readable(sessions)
      && Committed(config, sessions, pending) <= config.budget.value
  }

  predicate Admits(config: Config, sessions: seq<Listed>, pending: nat) {
    Active(sessions) + pending < Maximum(config) && WithinBudget(config, sessions, pending)
  }

  lemma {:induction false} RetainedFront(sessions: seq<Listed>, i: nat)
    requires i <= |sessions|
    ensures RetainedBytes(sessions[..i]) <= RetainedBytes(sessions)
    decreases |sessions| - i
  {
    if i == |sessions| {
      assert sessions[..i] == sessions;
    } else {
      RetainedFront(sessions, i + 1);
      assert sessions[..i + 1][..i] == sessions[..i];
    }
  }

  method CountActive(sessions: seq<Listed>) returns (active: nat)
    ensures active == Active(sessions)
  {
    active := 0;
    for i := 0 to |sessions|
      invariant active == Active(sessions[..i])
    {
      assert sessions[..i + 1][..i] == sessions[..i];
      if !sessions[i].closed && sessions[i].alive {
        active := active + 1;
      }
    }
    assert sessions[..|sessions|] == sessions;
  }

  method CountOpen(sessions: seq<Listed>) returns (open: nat)
    ensures open == StillOpen(sessions)
  {
    open := 0;
    for i := 0 to |sessions|
      invariant open == StillOpen(sessions[..i])
    {
      assert sessions[..i + 1][..i] == sessions[..i];
      if !sessions[i].closed {
        open := open + 1;
      }
    }
    assert sessions[..|sessions|] == sessions;
  }

  /** The loop stops as soon as the budget is exceeded, and decides what the full sum
      decides. */
  method CheckRetained(sessions: seq<Listed>, base: int, budget: int) returns (refused: Option<Refusal>)
    ensures refused == None <==> Readable(sessions) && base + RetainedBytes(sessions) <= budget
    ensures refused == Some(Quota) ==> base + RetainedBytes(sessions) > budget
    ensures refused == Some(QuotaInvalid) ==> !Readable(sessions)
    ensures refused != Some(SessionLimit)
  {
    var committed := base;
    for index := 0 to |sessions|
      invariant committed == base + RetainedBytes(sessions[..index])
      invariant forall i | 0 <= i < index :: sessions[i].closed ==> !sessions[i].log.Invalid?
    {
      assert sessions[..index + 1][..index] == sessions[..index];
      if sessions[index].closed && !sessions[index].log.NoLog? {
        if sessions[index].log.Invalid? {
          return Some(QuotaInvalid);
        }
        committed := committed + sessions[index].log.size;
        if committed > budget {
          RetainedFront(sessions, index + 1);
          return Some(Quota);
        }
      }
    }
    assert sessions[..|sessions|] == sessions;
    return if committed > budget then Some(Quota) else None;
  }

  /** The right to give a reserved slot back, once. */
  class Slot {
    var released: bool

    constructor ()
      ensures !released
    {
      released := false;
    }
  }

  class Manager {
    const config: Config
    var pendingOpens: nat

    constructor (config: Config)
      ensures this.config == config && pendingOpens == 0
    {
      this.config := config;
      pendingOpens := 0;
    }

    method ReserveOpenSlot(sessions: seq<Listed>) returns (r: Result<Slot, Refusal>)
      modifies this
      ensures r.Ok? <==> Admits(config, sessions, old(pendingOpens))
      ensures r.Ok? ==> fresh(r.value) && !r.value.released && pendingOpens == old(pendingOpens) + 1
      ensures r.Err? ==> pendingOpens == old(pendingOpens)
      ensures r == Err(SessionLimit) <==> Active(sessions) + old(pendingOpens) >= Maximum(config)
      ensures r == Err(Quota) ==>
                config.budget.Some? && Committed(config, sessions, old(pendingOpens)) > config.budget.value
    {
      var active := CountActive(sessions);
      if active + pendingOpens >= Maximum(config) {
        return Err(SessionLimit);
      }
      if config.budget.Some? {
        if config.budget.value < 1 || config.cap < 1 {
          return Err(QuotaInvalid);
        }
        var stillOpen := CountOpen(sessions);
        var refused := CheckRetained(sessions, (stillOpen + pendingOpens + 1) * config.cap, config.budget.value);
        if refused.Some? {
          return Err(refused.value);
        }
      }
      pendingOpens := pendingOpens + 1;
      var slot := new Slot();
      return Ok(slot);
    }

    /** Calling it again changes nothing. */
    method Release(slot: Slot)
      requires !slot.released ==> pendingOpens > 0
      modifies this, slot
      ensures slot.released
      ensures pendingOpens == if old(slot.released) then old(pendingOpens) else old(pendingOpens) - 1
    {
      if slot.released {
        return;
      }
      slot.released := true;
      pendingOpens := pendingOpens - 1;
    }
  }

  lemma Scales(m: nat, n: nat, cap: nat)
    requires m <= n
    ensures m * cap <= n * cap
  {
  }

  /** A configuration whose budget covers every active terminal never refuses a session
      for its quota while nothing closed is retained and fewer are open than may be. */
  lemma ConfiguredBudgetSuffices(config: Config, sessions: seq<Listed>, pending: nat)
    requires config.budget.Some? && config.cap >= 1 && config.terminalMaxActive >= 1
    requires config.budget.value >= config.terminalMaxActive * config.cap
    requires Readable(sessions) && RetainedBytes(sessions) == 0 && StillOpen(sessions) + pending < Maximum(config)
    ensures WithinBudget(config, sessions, pending)
  {
    hide StillOpen, RetainedBytes, Readable;
    Scales(StillOpen(sessions) + pending + 1, config.terminalMaxActive, config.cap);
    Scales(1, config.terminalMaxActive, config.cap);
  }
}
