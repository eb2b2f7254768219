/** The bridge pool: locking tokens on the way out, releasing them on the way in, and the daily
    limit both directions share. Signatures and message hashes are parameters. */
module Bridge {
  import opened Numbers
  import opened Sums

  datatype Account = Account(balance: nat, nonce: nat)
  datatype Config = Config(enabled: bool, paused: bool, pool: Addr, min: nat, max: nat, delay: int, dayStart: int, dayAmount: nat)
  datatype Inbound = Inbound(recipient: Addr, amount: nat, claimableAfter: int, claimed: bool)
  datatype Outbound = Outbound(sender: Addr, amount: nat, fee: nat, lockedAt: int, claimableAfter: int)

  datatype State = State(accounts: map<Addr, Account>, config: Option<Config>, inbounds: map<string, Inbound>,
                         consumed: set<string>, outbounds: seq<Outbound>)

  const DEFAULT_DAY_LIMIT: nat := 1_000_000_000_000
  const MIN_DELAY: int := 3600

  function AccountOf(accounts: map<Addr, Account>, a: Addr): Account { if a in accounts then accounts[a] else Account(0, 0) }

  /** Starts a new counting day once the current one is over. */
  function Rolled(c: Config, now: int): Config {
    if now - c.dayStart >= DAY_SECONDS then c.(dayStart := now, dayAmount := 0) else c
  }

  predicate Open(st: State) { st.config.Some? && st.config.value.enabled && !st.config.value.paused }

  predicate WithinDay(c: Config, amount: nat) { c.dayAmount < c.max && amount <= c.max - c.dayAmount }

  datatype OutRequest = OutRequest(sender: Addr, amount: nat, fee: nat, nonce: nat, signed: bool)

  predicate CanLock(st: State, r: OutRequest, now: int) {
    && Open(st) && r.amount >= st.config.value.min
    && var c := Rolled(st.config.value, now);
    && WithinDay(c, r.amount)
    && r.amount + r.fee <= MAX_U64
    && r.amount + r.fee <= AccountOf(st.accounts, r.sender).balance
    && r.nonce == AccountOf(st.accounts, r.sender).nonce && r.signed
    && AccountOf(st.accounts, c.pool).balance + r.amount + r.fee <= MAX_U64
  }

  /** `applyBridgeOutLocked`: the day rolls over even when a later check fails; both accounts are
      read before either is written. */
  function Lock(st: State, r: OutRequest, now: int): State {
    if !Open(st) || r.amount < st.config.value.min then st
    else
      var c := Rolled(st.config.value, now);
      if !CanLock(st, r, now) then st.(config := Some(c))
      else
        var total := r.amount + r.fee;
        var sender, pool := AccountOf(st.accounts, r.sender), AccountOf(st.accounts, c.pool);
        State(st.accounts[r.sender := Account(sender.balance - total, sender.nonce + 1)]
                         [c.pool := pool.(balance := pool.balance + total)],
              Some(c.(dayAmount := c.dayAmount + r.amount)), st.inbounds, st.consumed,
              st.outbounds + [Outbound(r.sender, r.amount, r.fee, now, now + c.delay)])
  }

  datatype InRequest = InRequest(message: string, source: string, recipient: Addr, amount: nat, authorized: bool)

  function InboundFor(st: State, r: InRequest, now: int): Inbound {
    if r.source in st.inbounds then st.inbounds[r.source] else Inbound(r.recipient, r.amount, now, false)
  }

  predicate CanClaim(st: State, r: InRequest, now: int) {
    && Open(st) && r.authorized && r.message !in st.consumed && r.amount >= st.config.value.min
    && var c := Rolled(st.config.value, now);
    && WithinDay(c, r.amount)
    && var i := InboundFor(st, r, now);
    && now >= i.claimableAfter && !i.claimed && i.amount == r.amount
    && i.amount <= AccountOf(st.accounts, c.pool).balance
    && AccountOf(st.accounts, i.recipient).balance + i.amount <= MAX_U64
  }

  /** `applyBridgeInClaimLocked` */
  function Claim(st: State, r: InRequest, now: int): State {
    if !Open(st) || !r.authorized || r.message in st.consumed || r.amount < st.config.value.min then st
    else
      var c := Rolled(st.config.value, now);
      if !CanClaim(st, r, now) then st.(config := Some(c))
      else
        var i := InboundFor(st, r, now);
        var pool, dest := AccountOf(st.accounts, c.pool), AccountOf(st.accounts, i.recipient);
        State(st.accounts[c.pool := pool.(balance := pool.balance - i.amount)]
                         [i.recipient := dest.(balance := dest.balance + i.amount)],
              Some(c.(dayAmount := c.dayAmount + r.amount)), st.inbounds[r.source := i.(claimed := true)],
              st.consumed + {r.message}, st.outbounds)
  }

  datatype Change = Change(min: Option<nat>, max: Option<nat>, delay: Option<int>)

  function DefaultConfig(pool: Addr, now: int): Config { Config(true, false, pool, 0, DEFAULT_DAY_LIMIT, 86400, now, 0) }

  predicate ValidChange(c: Config, ch: Change) {
    && (ch.min.Some? ==> ch.min.value > 0)
    && (ch.max.Some? ==> ch.max.value >= (if ch.min.Some? then ch.min.value else c.min))
    && (ch.delay.Some? ==> ch.delay.value >= MIN_DELAY)
  }

  /** The `update_config` part of `applyBridgeSetConfigLocked`: a new limit leaves the running day alone. */
  function Reconfigure(st: State, ch: Change, pool: Addr, now: int): State {
    var c := if st.config.Some? then st.config.value else DefaultConfig(pool, now);
    if !ValidChange(c, ch) then st
    else st.(config := Some(c.(min := if ch.min.Some? then ch.min.value else c.min,
                               max := if ch.max.Some? then ch.max.value else c.max,
                               delay := if ch.delay.Some? then ch.delay.value else c.delay)))
  }

  function Pause(st: State, paused: bool): State {
    if st.config.None? then st else st.(config := Some(st.config.value.(paused := paused)))
  }

  datatype Op =
    | OpLock(out: OutRequest, now: int)
    | OpClaim(claim: InRequest, now: int)
    | OpReconfigure(change: Change, pool: Addr, now: int)
    | OpPause(paused: bool, now: int)

  function Step(st: State, op: Op): State {
    match op
    case OpLock(r, now) => Lock(st, r, now)
    case OpClaim(r, now) => Claim(st, r, now)
    case OpReconfigure(ch, pool, now) => Reconfigure(st, ch, pool, now)
    case OpPause(p, _) => Pause(st, p)
  }

  function Run(st: State, ops: seq<Op>): State
    decreases |ops|
  {
    if ops == [] then st else Run(Step(st, ops[0]), ops[1..])
  }

  // ---------------------------------------------------------------- what a transfer takes, and what it does

  /** The counting day a transfer at `now` falls into, and what it has used: the stored one while it is
      less than 86400 seconds old, a new empty one from then on. */
  ghost predicate CountingDay(c: Config, now: int, start: int, used: nat) {
    if now - c.dayStart < 86_400 then start == c.dayStart && used == c.dayAmount else start == now && used == 0
  }

  /** A transfer out is accepted exactly while the bridge is on and not paused, from the minimum up, within
      what is left of the day's limit, correctly signed with the sender's next nonce, and with amount and
      fee there. Then both move into the pool; otherwise no money moves. */
  lemma LockIs(st: State, r: OutRequest, now: int, start: int, used: nat)
    requires st.config.Some? && CountingDay(st.config.value, now, start, used)
    requires r.sender != st.config.value.pool
    ensures var c, end := st.config.value, Step(st, OpLock(r, now));
            var total, sender, pool := r.amount + r.fee, AccountOf(st.accounts, r.sender), AccountOf(st.accounts, c.pool);
            if c.enabled && !c.paused && c.min <= r.amount && used < c.max && used + r.amount <= c.max
               && total <= sender.balance && r.nonce == sender.nonce && r.signed && total <= MAX_U64 && pool.balance + total <= MAX_U64
            then
              && AccountOf(end.accounts, r.sender) == Account(sender.balance - total, sender.nonce + 1)
              && AccountOf(end.accounts, c.pool) == Account(pool.balance + total, pool.nonce)
              && end.config == Some(c.(dayStart := start, dayAmount := used + r.amount))
              && end.outbounds == st.outbounds + [Outbound(r.sender, r.amount, r.fee, now, now + c.delay)]
            else end.accounts == st.accounts && end.outbounds == st.outbounds
  {
  }

  /** A claim is accepted exactly while the bridge is on and not paused, when it is authorized, its message
      is new, its source is unclaimed and claimable and recorded with no other amount, and it is within the
      limits and the pool. Then the pool pays the recipient and both are used up; otherwise no money moves
      and nothing is used up. */
  lemma ClaimIs(st: State, r: InRequest, now: int, start: int, used: nat)
    requires st.config.Some? && CountingDay(st.config.value, now, start, used)
    requires var to := if r.source in st.inbounds then st.inbounds[r.source].recipient else r.recipient; to != st.config.value.pool
    ensures var c, end := st.config.value, Step(st, OpClaim(r, now));
            var known := r.source in st.inbounds;
            var to := if known then st.inbounds[r.source].recipient else r.recipient;
            var dest, pool := AccountOf(st.accounts, to), AccountOf(st.accounts, c.pool);
            if c.enabled && !c.paused && r.authorized && r.message !in st.consumed && c.min <= r.amount
               && used < c.max && used + r.amount <= c.max && r.amount <= pool.balance && dest.balance + r.amount <= MAX_U64
               && (known ==> var i := st.inbounds[r.source]; now >= i.claimableAfter && !i.claimed && i.amount == r.amount)
            then
              && AccountOf(end.accounts, c.pool) == Account(pool.balance - r.amount, pool.nonce)
              && AccountOf(end.accounts, to) == Account(dest.balance + r.amount, dest.nonce)
              && end.config == Some(c.(dayStart := start, dayAmount := used + r.amount))
              && end.consumed == st.consumed + {r.message}
              && r.source in end.inbounds && end.inbounds[r.source].claimed
            else end.accounts == st.accounts && end.consumed == st.consumed && end.inbounds == st.inbounds
  {
  }

  /** Without a configuration, or while it is off or paused, neither direction changes anything. */
  lemma ClosedBridgeIsStill(st: State, out: OutRequest, claim: InRequest, now: int)
    requires st.config.None? || !st.config.value.enabled || st.config.value.paused
    ensures Step(st, OpLock(out, now)) == st && Step(st, OpClaim(claim, now)) == st
  {
  }

  /** A new configuration is taken exactly when its minimum is positive, its limit is not below the
      minimum and its delay is at least an hour; what it does not name keeps its value, and the running
      day is left alone. */
  lemma ReconfigureIs(st: State, ch: Change, pool: Addr, now: int)
    requires st.config.Some?
    ensures var c, end := st.config.value, Step(st, OpReconfigure(ch, pool, now));
            if (ch.min.Some? ==> ch.min.value > 0) && (ch.delay.Some? ==> ch.delay.value >= 3600)
               && (ch.max.Some? ==> ch.max.value >= (if ch.min.Some? then ch.min.value else c.min))
            then
              && end == st.(config := end.config) && end.config.Some?
              && var n := end.config.value;
              && n.min == (if ch.min.Some? then ch.min.value else c.min)
              && n.max == (if ch.max.Some? then ch.max.value else c.max)
              && n.delay == (if ch.delay.Some? then ch.delay.value else c.delay)
              && n == c.(min := n.min, max := n.max, delay := n.delay)
            else end == st
  {
  }

  // ---------------------------------------------------------------- each source is credited once

  function CreditedBy(st: State, op: Op): seq<string> {
    if op.OpClaim? && CanClaim(st, op.claim, op.now) then [op.claim.source] else []
  }

  function Credited(st: State, ops: seq<Op>): seq<string>
    decreases |ops|
  {
    if ops == [] then [] else CreditedBy(st, ops[0]) + Credited(Step(st, ops[0]), ops[1..])
  }

  predicate Claimed(st: State, h: string) { h in st.inbounds && st.inbounds[h].claimed }

  lemma ClaimedStays(st: State, op: Op, h: string)
    ensures Claimed(st, h) ==> Claimed(Step(st, op), h) && h !in CreditedBy(st, op)
    ensures h in CreditedBy(st, op) ==> Claimed(Step(st, op), h)
  {
  }

  lemma {:induction false} ClaimedIsNeverCredited(st: State, ops: seq<Op>, h: string)
    requires Claimed(st, h)
    ensures h !in Credited(st, ops)
    decreases |ops|
  {
    if ops != [] {
      ClaimedStays(st, ops[0], h);
      ClaimedIsNeverCredited(Step(st, ops[0]), ops[1..], h);
    }
  }

  /** In every run, each source transaction hash is credited at most once. */
  lemma {:induction false} CreditedOnce(st: State, ops: seq<Op>)
    ensures var c := Credited(st, ops); forall i, j | 0 <= i < j < |c| :: c[i] != c[j]
    decreases |ops|
  {
    if ops != [] {
      CreditedOnce(Step(st, ops[0]), ops[1..]);
      var first := CreditedBy(st, ops[0]);
      if first != [] {
        ClaimedStays(st, ops[0], first[0]);
        ClaimedIsNeverCredited(Step(st, ops[0]), ops[1..], first[0]);
      }
    }
  }

  // ---------------------------------------------------------------- the pool balance

  function PoolBalance(st: State): nat { if st.config.Some? then AccountOf(st.accounts, st.config.value.pool).balance else 0 }

  /** What a step should add to the pool. */
  function Flow(st: State, op: Op): int {
    match op
    case OpLock(r, now) => if CanLock(st, r, now) then r.amount + r.fee else 0
    case OpClaim(r, now) => if CanClaim(st, r, now) then -(r.amount as int) else 0
    case _ => 0
  }

  function Flows(st: State, ops: seq<Op>): int
    decreases |ops|
  {
    if ops == [] then 0 else Flow(st, ops[0]) + Flows(Step(st, ops[0]), ops[1..])
  }

  /** The far side of an accepted transfer. */
  function Counterparty(st: State, op: Op): Option<Addr> {
    match op
    case OpLock(r, now) => if CanLock(st, r, now) then Some(r.sender) else None
    case OpClaim(r, now) => if CanClaim(st, r, now) then Some(InboundFor(st, r, now).recipient) else None
    case _ => None
  }

  /** A claim moves the pool by its flow exactly when its recipient is not the pool itself (both
      accounts are read first and the recipient is written last, so that case would mint). */
  lemma ClaimMovesPool(st: State, r: InRequest, now: int)
    requires CanClaim(st, r, now) && r.amount > 0
    ensures PoolBalance(Claim(st, r, now)) == PoolBalance(st) - r.amount
            <==> InboundFor(st, r, now).recipient != st.config.value.pool
  {
  }

  /** What an accepted transfer whose far side is the pool itself adds to the supply: both accounts
      are read before either is written, so one of the two writes is lost. */
  function Minted(st: State, op: Op): nat {
    if st.config.None? || Counterparty(st, op) != Some(st.config.value.pool) then 0
    else
      match op
      case OpLock(r, _) => r.amount + r.fee
      case OpClaim(r, _) => r.amount
      case _ => 0
  }

  /** How far a step takes the pool away from its flow: a claim by the pool adds what it should take. */
  function Drift(st: State, op: Op): nat { if op.OpClaim? then 2 * Minted(st, op) else 0 }

  lemma StepMovesPool(st: State, op: Op)
    requires st.config.Some?
    ensures PoolBalance(Step(st, op)) == PoolBalance(st) + Flow(st, op) + Drift(st, op)
    ensures Step(st, op).config.Some? && Step(st, op).config.value.pool == st.config.value.pool
  {
  }

  function Drifts(st: State, ops: seq<Op>): nat
    decreases |ops|
  {
    if ops == [] then 0 else Drift(st, ops[0]) + Drifts(Step(st, ops[0]), ops[1..])
  }

  /** Over every run the pool holds what it started with, plus amounts and fees locked, minus claims, if
      and only if no claim was paid to the pool; in general it exceeds that by twice such claims. */
  lemma {:induction false} PoolBalanceIsFlows(st: State, ops: seq<Op>)
    requires st.config.Some?
    ensures PoolBalance(Run(st, ops)) == PoolBalance(st) + Flows(st, ops) + Drifts(st, ops)
    ensures PoolBalance(Run(st, ops)) == PoolBalance(st) + Flows(st, ops) <==> Drifts(st, ops) == 0
    decreases |ops|
  {
    if ops != [] {
      StepMovesPool(st, ops[0]);
      PoolBalanceIsFlows(Step(st, ops[0]), ops[1..]);
    }
  }

  // ---------------------------------------------------------------- the supply

  function BalanceAt(a: Addr, acct: Account): int { acct.balance }

  ghost function Supply(st: State): int { Sum(st.accounts, BalanceAt) }

  /** Writing two accounts in turn: if they are the same, the first write is lost. */
  lemma TwoWrites(accounts: map<Addr, Account>, a: Addr, x: Account, b: Addr, y: Account)
    ensures Sum(accounts[a := x][b := y], BalanceAt)
            == Sum(accounts, BalanceAt) - AccountOf(accounts, b).balance + y.balance
               + (if a == b then 0 else x.balance - AccountOf(accounts, a).balance)
  {
    SumPut(accounts, BalanceAt, a, x);
    SumPut(accounts[a := x], BalanceAt, b, y);
  }

  lemma StepMovesSupply(st: State, op: Op)
    ensures Supply(Step(st, op)) == Supply(st) + Minted(st, op)
  {
    if op.OpLock? && CanLock(st, op.out, op.now) {
      var r, c := op.out, st.config.value;
      var x, y := AccountOf(st.accounts, r.sender), AccountOf(st.accounts, c.pool);
      TwoWrites(st.accounts, r.sender, Account(x.balance - (r.amount + r.fee), x.nonce + 1), c.pool, y.(balance := y.balance + (r.amount + r.fee)));
    } else if op.OpClaim? && CanClaim(st, op.claim, op.now) {
      var i, c := InboundFor(st, op.claim, op.now), st.config.value;
      var x, y := AccountOf(st.accounts, c.pool), AccountOf(st.accounts, i.recipient);
      TwoWrites(st.accounts, c.pool, x.(balance := x.balance - i.amount), i.recipient, y.(balance := y.balance + i.amount));
    }
  }

  function MintedAlong(st: State, ops: seq<Op>): nat
    decreases |ops|
  {
    if ops == [] then 0 else Minted(st, ops[0]) + MintedAlong(Step(st, ops[0]), ops[1..])
  }

  /** Over every run the bridge keeps the supply if and only if the pool never dealt with itself. */
  lemma {:induction false} RunKeepsSupplyExactly(st: State, ops: seq<Op>)
    ensures Supply(Run(st, ops)) == Supply(st) + MintedAlong(st, ops)
    ensures Supply(Run(st, ops)) == Supply(st) <==> MintedAlong(st, ops) == 0
    decreases |ops|
  {
    if ops != [] {
      StepMovesSupply(st, ops[0]);
      RunKeepsSupplyExactly(Step(st, ops[0]), ops[1..]);
    }
  }

  // ---------------------------------------------------------------- the daily limit

  /** An accepted transfer, tagged with the start of the day it was counted in. */
  datatype Event = Event(time: int, amount: nat, day: int)

  function EventOf(st: State, op: Op): seq<Event> {
    match op
    case OpLock(r, now) => if CanLock(st, r, now) then [Event(now, r.amount, Rolled(st.config.value, now).dayStart)] else []
    case OpClaim(r, now) => if CanClaim(st, r, now) then [Event(now, r.amount, Rolled(st.config.value, now).dayStart)] else []
    case _ => []
  }

  function Log(st: State, log: seq<Event>, ops: seq<Op>): seq<Event>
    decreases |ops|
  {
    if ops == [] then log else Log(Step(st, ops[0]), log + EventOf(st, ops[0]), ops[1..])
  }

  function OfDay(log: seq<Event>, day: int): nat {
    if log == [] then 0
    else OfDay(log[..|log| - 1], day) + (if log[|log| - 1].day == day then log[|log| - 1].amount else 0)
  }

  predicate Within(e: Event, x: int) { x <= e.time <= x + DAY_SECONDS }

  /** What was accepted between `x` and 86400 seconds later. */
  function Accepted(log: seq<Event>, x: int): nat {
    if log == [] then 0
    else Accepted(log[..|log| - 1], x) + (if Within(log[|log| - 1], x) then log[|log| - 1].amount else 0)
  }

  /** Days come in order, at least 86400 seconds apart, each event lies inside its day, and no day exceeds `limit`. */
  ghost predicate DaysKept(log: seq<Event>, limit: nat) {
    && (forall i | 0 <= i < |log| :: log[i].day <= log[i].time < log[i].day + DAY_SECONDS)
    && (forall i, j | 0 <= i < j < |log| :: log[i].day == log[j].day || log[i].day + DAY_SECONDS <= log[j].day)
    && (forall d :: OfDay(log, d) <= limit)
  }

  ghost predicate LimitInv(config: Option<Config>, log: seq<Event>, limit: nat, last: int) {
    && DaysKept(log, limit)
    && (config.None? ==> log == [])
    && (config.Some? ==> var c := config.value;
          && c.dayStart <= last && c.dayAmount == OfDay(log, c.dayStart)
          && forall i | 0 <= i < |log| :: log[i].day == c.dayStart || log[i].day + DAY_SECONDS <= c.dayStart)
  }

  lemma {:induction false} NewDayIsEmpty(log: seq<Event>, day: int)
    requires forall i | 0 <= i < |log| :: log[i].day != day
    ensures OfDay(log, day) == 0
  {
    if log != [] { NewDayIsEmpty(log[..|log| - 1], day); }
  }

  /** Rolling the day over keeps the counter equal to what the log says about the day. */
  lemma RollKeepsInv(c: Config, log: seq<Event>, limit: nat, last: int, now: int)
    requires LimitInv(Some(c), log, limit, last) && last <= now
    ensures LimitInv(Some(Rolled(c, now)), log, limit, now)
    ensures now < Rolled(c, now).dayStart + DAY_SECONDS
  {
    if now - c.dayStart >= DAY_SECONDS { NewDayIsEmpty(log, now); }
  }

  /** Accepting a transfer adds its event to the running day. */
  lemma AcceptKeepsInv(c: Config, log: seq<Event>, limit: nat, now: int, amount: nat)
    requires LimitInv(Some(c), log, limit, now) && now < c.dayStart + DAY_SECONDS
    requires WithinDay(c, amount) && c.max <= limit
    ensures LimitInv(Some(c.(dayAmount := c.dayAmount + amount)), log + [Event(now, amount, c.dayStart)], limit, now)
  {
    var e := Event(now, amount, c.dayStart);
    assert (log + [e])[..|log + [e]| - 1] == log;
    forall d ensures OfDay(log + [e], d) == OfDay(log, d) + (if d == e.day then amount else 0) {}
  }

  /** What a transfer does to the day counter. */
  lemma TransferCounts(st: State, op: Op)
    requires st.config.Some? && (op.OpLock? || op.OpClaim?)
    ensures var c, end := Rolled(st.config.value, op.now), Step(st, op).config;
            if EventOf(st, op) == [] then end == st.config || end == Some(c)
            else var amount := if op.OpLock? then op.out.amount else op.claim.amount;
                 && WithinDay(c, amount) && end == Some(c.(dayAmount := c.dayAmount + amount))
                 && EventOf(st, op) == [Event(op.now, amount, c.dayStart)]
  {
  }

  lemma LaterKeepsInv(c: Option<Config>, log: seq<Event>, limit: nat, last: int, now: int)
    requires LimitInv(c, log, limit, last) && last <= now
    ensures LimitInv(c, log, limit, now)
  {
  }

  lemma TransferKeepsLimit(st: State, log: seq<Event>, limit: nat, last: int, op: Op)
    requires LimitInv(st.config, log, limit, last) && last <= op.now && st.config.Some? && st.config.value.max <= limit
    requires op.OpLock? || op.OpClaim?
    ensures LimitInv(Step(st, op).config, log + EventOf(st, op), limit, op.now)
  {
    var c := Rolled(st.config.value, op.now);
    TransferCounts(st, op);
    RollKeepsInv(st.config.value, log, limit, last, op.now);
    LaterKeepsInv(st.config, log, limit, last, op.now);
    if EventOf(st, op) == [] {
      assert log + EventOf(st, op) == log;
    } else {
      AcceptKeepsInv(c, log, limit, op.now, if op.OpLock? then op.out.amount else op.claim.amount);
    }
  }

  lemma SameDayKeepsInv(c: Option<Config>, end: Option<Config>, log: seq<Event>, limit: nat, last: int, now: int)
    requires LimitInv(c, log, limit, last) && last <= now
    requires c.Some? ==> end.Some? && end.value.dayStart == c.value.dayStart && end.value.dayAmount == c.value.dayAmount
    requires c.None? && end.Some? ==> end.value.dayStart == now && end.value.dayAmount == 0
    ensures LimitInv(end, log, limit, now)
  {
    if c.None? { assert OfDay(log, now) == 0; }
  }

  lemma SettingsKeepLimit(st: State, log: seq<Event>, limit: nat, last: int, op: Op)
    requires LimitInv(st.config, log, limit, last) && last <= op.now
    requires st.config.None? || !(op.OpLock? || op.OpClaim?)
    ensures LimitInv(Step(st, op).config, log + EventOf(st, op), limit, op.now)
  {
    SameDayKeepsInv(st.config, Step(st, op).config, log, limit, last, op.now);
    assert log + EventOf(st, op) == log;
  }

  lemma StepKeepsLimit(st: State, log: seq<Event>, limit: nat, last: int, op: Op)
    requires LimitInv(st.config, log, limit, last) && last <= op.now && (st.config.Some? ==> st.config.value.max <= limit)
    ensures LimitInv(Step(st, op).config, log + EventOf(st, op), limit, op.now)
  {
    if st.config.Some? && (op.OpLock? || op.OpClaim?) {
      TransferKeepsLimit(st, log, limit, last, op);
    } else {
      SettingsKeepLimit(st, log, limit, last, op);
    }
  }

  predicate Timely(last: int, ops: seq<Op>)
    decreases |ops|
  {
    ops == [] || (last <= ops[0].now && Timely(ops[0].now, ops[1..]))
  }

  predicate LimitsBelow(st: State, ops: seq<Op>, limit: nat)
    decreases |ops|
  {
    (st.config.Some? ==> st.config.value.max <= limit) && (ops == [] || LimitsBelow(Step(st, ops[0]), ops[1..], limit))
  }

  lemma {:induction false} RunKeepsLimit(st: State, log: seq<Event>, limit: nat, last: int, ops: seq<Op>)
    requires LimitInv(st.config, log, limit, last) && Timely(last, ops) && LimitsBelow(st, ops, limit)
    ensures DaysKept(Log(st, log, ops), limit)
    decreases |ops|
  {
    if ops != [] {
      StepKeepsLimit(st, log, limit, last, ops[0]);
      RunKeepsLimit(Step(st, ops[0]), log + EventOf(st, ops[0]), limit, ops[0].now, ops[1..]);
    }
  }

  /** Events within 86400 seconds of each other were counted in at most two days. */
  lemma TwoDaysAtMost(log: seq<Event>, limit: nat, x: int) returns (a: int, b: int)
    requires DaysKept(log, limit)
    ensures forall i | 0 <= i < |log| && Within(log[i], x) :: log[i].day == a || log[i].day == b
  {
    a, b := 0, 0;
    if i :| 0 <= i < |log| && Within(log[i], x) {
      a, b := log[i].day, log[i].day;
      if j :| 0 <= j < |log| && Within(log[j], x) && log[j].day != a {
        b := log[j].day;
      }
    }
  }

  lemma {:induction false} AcceptedFitsDays(log: seq<Event>, x: int, a: int, b: int)
    requires forall i | 0 <= i < |log| && Within(log[i], x) :: log[i].day == a || log[i].day == b
    ensures Accepted(log, x) <= OfDay(log, a) + (if a == b then 0 else OfDay(log, b))
  {
    if log != [] { AcceptedFitsDays(log[..|log| - 1], x, a, b); }
  }

  /** No interval of 86400 seconds, wherever it starts, accepts more than twice the largest daily
      limit in force during the run. */
  lemma DailyLimitHolds(st: State, ops: seq<Op>, limit: nat, last: int, x: int)
    requires LimitInv(st.config, [], limit, last) && Timely(last, ops) && LimitsBelow(st, ops, limit)
    ensures Accepted(Log(st, [], ops), x) <= 2 * limit
  {
    RunKeepsLimit(st, [], limit, last, ops);
    var log := Log(st, [], ops);
    var a, b := TwoDaysAtMost(log, limit, x);
    AcceptedFitsDays(log, x, a, b);
    assert OfDay(log, a) <= limit && OfDay(log, b) <= limit;
  }

  // ---------------------------------------------------------------- the store

  class BridgeStore {
    var accounts: map<Addr, Account>
    var config: Option<Config>
    var inbounds: map<string, Inbound>
    var consumed: set<string>
    var outbounds: seq<Outbound>

    ghost function View(): State
      reads this
    {
      State(accounts, config, inbounds, consumed, outbounds)
    }

    /** Rolls the day over if it is time and says whether the amount still fits. */
    method RollDay(amount: nat, now: int) returns (fits: bool)
      requires config.Some?
      modifies this`config
      ensures config == Some(Rolled(old(config).value, now)) && fits == WithinDay(config.value, amount)
    {
      var c := config.value;
      if now - c.dayStart >= DAY_SECONDS {
        c := c.(dayStart := now, dayAmount := 0);
        config := Some(c);
      }
      if c.dayAmount >= c.max { return false; }
      if amount > c.max - c.dayAmount { return false; }
      return true;
    }

    method BridgeOut(r: OutRequest, now: int) returns (ok: bool)
      modifies this
      ensures View() == Lock(old(View()), r, now) && ok == CanLock(old(View()), r, now)
    {
      if config.None? || !config.value.enabled || config.value.paused { return false; }
      if r.amount < config.value.min { return false; }
      var fits := RollDay(r.amount, now);
      if !fits { return false; }
      var c := config.value;
      if r.amount + r.fee > MAX_U64 { return false; }
      var total := r.amount + r.fee;
      var account := AccountOf(accounts, r.sender);
      if account.balance < total || r.nonce != account.nonce || !r.signed { return false; }
      var pool := AccountOf(accounts, c.pool);
      if pool.balance + total > MAX_U64 { return false; }
      accounts := accounts[r.sender := Account(account.balance - total, account.nonce + 1)];
      accounts := accounts[c.pool := pool.(balance := pool.balance + total)];
      outbounds := outbounds + [Outbound(r.sender, r.amount, r.fee, now, now + c.delay)];
      config := Some(c.(dayAmount := c.dayAmount + r.amount));
      return true;
    }

    method BridgeInClaim(r: InRequest, now: int) returns (ok: bool)
      modifies this
      ensures View() == Claim(old(View()), r, now) && ok == CanClaim(old(View()), r, now)
    {
      if config.None? || !config.value.enabled || config.value.paused { return false; }
      if !r.authorized || r.message in consumed || r.amount < config.value.min { return false; }
      var fits := RollDay(r.amount, now);
      if !fits { return false; }
      var c := config.value;
      var inbound := if r.source in inbounds then inbounds[r.source] else Inbound(r.recipient, r.amount, now, false);
      if now < inbound.claimableAfter || inbound.claimed || inbound.amount != r.amount { return false; }
      var pool := AccountOf(accounts, c.pool);
      if pool.balance < inbound.amount { return false; }
      var dest := AccountOf(accounts, inbound.recipient);
      if dest.balance + inbound.amount > MAX_U64 { return false; }
      accounts := accounts[c.pool := pool.(balance := pool.balance - inbound.amount)];
      accounts := accounts[inbound.recipient := dest.(balance := dest.balance + inbound.amount)];
      inbounds := inbounds[r.source := inbound.(claimed := true)];
      consumed := consumed + {r.message};
      config := Some(c.(dayAmount := c.dayAmount + r.amount));
      return true;
    }
  }
}
