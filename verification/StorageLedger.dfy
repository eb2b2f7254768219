/** The storage escrow ledger: every change of a deal's money, against the owner's locked balance,
    the permanent funds and the pool totals.

    Every withdrawal is clamped to what the account has locked, as in the code; under the ledger
    invariant each one is shown to take its full amount, so the clamps are dead code there. The
    class in `StorageStore` computes these functions in place, in every state. */
module StorageLedger {
  import opened Numbers
  import opened Sums
  import opened Escrow

  const GRACE: int := 7 * 86400
  const SHARE_BPS: nat := 300

  type Id = string

  datatype Acct = Acct(balance: nat, locked: nat)
  datatype Pool = Pool(totalLocked: nat, totalPaid: nat, totalRefunded: nat, totalBurned: nat, fundBalance: nat)
  /** `stranded` is bookkeeping of this model: the burn recorded when a deal's fee was distributed, which
      the code takes out of the locked fee and then counts as used once more. No step reads it. */
  datatype State = State(accounts: map<Addr, Acct>, intents: map<Id, Intent>, funds: map<Id, Fund>,
                         deals: map<Id, Deal>, pool: Pool, stranded: map<Id, nat>)

  function AcctOf(accounts: map<Addr, Acct>, a: Addr): Acct { if a in accounts then accounts[a] else Acct(0, 0) }

  function Get<V>(m: map<Id, V>, id: Id): Option<V> { if id in m then Some(m[id]) else None }

  // ---------------------------------------------------------------- records

  /** `ensurePermanentFundLocked` */
  function FundOf(funds: map<Id, Fund>, id: Id, i: Intent, now: int): Fund {
    if id in funds then
      if funds[id].created == 0 then funds[id].(created := FirstNonZero(i.created, now)) else funds[id]
    else Fund(Remaining(i), i.locked, i.paid, 0, false, FirstNonZero(i.created, now))
  }

  /** `dealEscrowLocked`: the up-to-date record, or an empty one for a deal that locks nothing. */
  function DealOf(deals: map<Id, Deal>, id: Id, i: Intent): Deal {
    if i.locked == 0 then if id in deals then deals[id] else Deal(0, 0, 0, 0, 0, 0, 0)
    else Synced(i, Get(deals, id))
  }

  /** `addDealEscrowFundsLocked`, for an intent whose locked fee already includes the amount. */
  function ToppedUpDeal(e: Deal, i: Intent, now: int): Deal {
    var start := if e.start == 0 && i.status == Finalized then FirstNonZero(i.updated, now) else e.start;
    e.(locked := i.locked, start := start, expires := if i.expires > 0 then i.expires else e.expires)
  }

  // ---------------------------------------------------------------- the steps

  function Open(st: State, id: Id, i: Intent): State {
    var acct := AcctOf(st.accounts, i.user);
    if id in st.intents || acct.balance < i.locked || Used(i) != 0 || !i.deferred || i.status != Uploading
       || i.expires != 0 || i.locked > MAX_U64
    then st
    else st.(accounts := st.accounts[i.user := Acct(acct.balance - i.locked, acct.locked + i.locked)],
             intents := st.intents[id := i])
  }

  datatype Split = Split(burn: nat, retrieval: nat, foundation: nat, miner: nat)

  /** The deferred distribution of a fee: three shares of 3% each (products wrap at 64 bits) and the rest. */
  function SplitOf(total: nat): (s: Split)
    ensures s.burn + s.retrieval + s.foundation + s.miner == total
    ensures s.burn + s.retrieval + s.foundation <= s.miner
  {
    assert WrapMul(total, SHARE_BPS) / 10000 <= total * 300 / 10000;
    var x := WrapMul(total, SHARE_BPS) / 10000;
    Split(x, x, x, total - 3 * x)
  }

  /** What a finalized deal records as burned: a share without a recipient is burned as well. */
  function FinalBurn(s: Split, retrieval: Addr, foundation: Addr): nat {
    s.burn + (if s.retrieval > 0 && retrieval != "" then 0 else s.retrieval)
           + (if s.foundation > 0 && foundation != "" then 0 else s.foundation)
  }

  function Paying(accounts: map<Addr, Acct>, a: Addr, amount: nat): map<Addr, Acct> {
    if amount == 0 || a == "" then accounts
    else accounts[a := AcctOf(accounts, a).(balance := AcctOf(accounts, a).balance + amount)]
  }

  function FinalizedIntent(i: Intent, retrieval: Addr, foundation: Addr, now: int): Intent {
    var s := SplitOf(i.locked);
    i.(status := Finalized, active := true, updated := now,
       expires := if i.duration > 0 then now + i.duration else i.expires,
       locked := s.miner, burned := FinalBurn(s, retrieval, foundation), deferred := false)
  }

  function Activated(e: Deal, i: Intent, now: int): Deal {
    e.(start := if e.start == 0 then now else e.start, expires := if i.duration > 0 then now + i.duration else e.expires)
  }

  /** The deferred distribution: the miner part stays locked, the other shares leave the account, the
      records are created. The owner's account is read first and written back last. */
  function DistributeFee(st: State, id: Id, retrieval: Addr, foundation: Addr, now: int): State
    requires id in st.intents
  {
    var i := st.intents[id];
    var s := SplitOf(i.locked);
    var acct := AcctOf(st.accounts, i.user);
    var n := FinalizedIntent(i, retrieval, foundation, now);
    var paid := Paying(Paying(st.accounts, retrieval, s.retrieval), foundation, s.foundation);
    var f := FundOf(st.funds, id, n, now);
    var e := DealOf(st.deals, id, n);
    State(paid[i.user := acct.(locked := Sub(acct.locked, i.locked - s.miner))],
          st.intents[id := n],
          if Permanent(n) then st.funds[id := f] else st.funds,
          st.deals[id := Activated(e.(burned := if n.burned > 0 then n.burned else e.burned), n, now)],
          st.pool.(fundBalance := if Permanent(n) then SatAdd(st.pool.fundBalance, f.balance) else st.pool.fundBalance,
                   totalLocked := if n.locked == 0 || id in st.deals then st.pool.totalLocked
                                  else SatAdd(st.pool.totalLocked, n.locked),
                   totalBurned := SatAdd(st.pool.totalBurned, n.burned)),
          st.stranded[id := n.burned])
  }

  function Reactivated(i: Intent, now: int): Intent {
    i.(status := Finalized, active := true, updated := now, expires := if i.duration > 0 then now + i.duration else i.expires)
  }

  /** Finalizing refuses only a deal that is finalized already: an expired one whose fee was
      distributed before is made active again. */
  function Finalize(st: State, id: Id, retrieval: Addr, foundation: Addr, now: int): State {
    if id !in st.intents || st.intents[id].status == Finalized then st
    else if st.intents[id].deferred then DistributeFee(st, id, retrieval, foundation, now)
    else
      var n := Reactivated(st.intents[id], now);
      st.(intents := st.intents[id := n], deals := st.deals[id := Activated(DealOf(st.deals, id, n), n, now)])
  }

  function SpendFinite(st: State, id: Id, requested: nat, now: int): (State, nat) {
    if id !in st.intents || requested == 0 || Permanent(st.intents[id]) then (st, 0)
    else
      var i := st.intents[id];
      var e := DealOf(st.deals, id, i);
      var acct := AcctOf(st.accounts, i.user);
      var amount := Min(Draw(e, i, requested, now), acct.locked);
      if amount == 0 then (st.(deals := st.deals[id := e.(accrued := Accrued(e, i, now))]), 0)
      else (st.(accounts := st.accounts[i.user := acct.(locked := acct.locked - amount)],
                intents := st.intents[id := Spent(i, amount)],
                deals := st.deals[id := e.(paid := SatAdd(e.paid, amount), accrued := Accrued(e, i, now))],
                pool := st.pool.(totalPaid := SatAdd(st.pool.totalPaid, amount))), amount)
  }

  /** The escrow record is brought up to date after the intent's paid fee has grown and then
      credited again: it over-states the payment until the next update. */
  function SpendPermanent(st: State, id: Id, requested: nat, now: int): (State, nat) {
    if id !in st.intents || requested == 0 || !Permanent(st.intents[id]) then (st, 0)
    else
      var i := st.intents[id];
      var f := FundOf(st.funds, id, i, now);
      var acct := AcctOf(st.accounts, i.user);
      var amount := if f.closed then 0 else Min(Min(requested, f.balance), acct.locked);
      var n := Spent(i, amount);
      var e := DealOf(st.deals, id, n);
      if amount == 0 then (st, 0)
      else (State(st.accounts[i.user := acct.(locked := acct.locked - amount)],
                  st.intents[id := n],
                  st.funds[id := f.(balance := f.balance - amount, paid := SatAdd(f.paid, amount))],
                  st.deals[id := e.(paid := SatAdd(e.paid, amount), accrued := SatAdd(e.accrued, amount))],
                  st.pool.(totalPaid := SatAdd(st.pool.totalPaid, amount),
                           fundBalance := Sub(st.pool.fundBalance, amount)), st.stranded), amount)
  }

  /** What the replayed top-up checks. */
  predicate CanReplayTopUp(st: State, id: Id, user: Addr, amount: nat) {
    && amount > 0 && id in st.intents && st.intents[id].user == user && Permanent(st.intents[id])
    && amount <= AcctOf(st.accounts, user).balance
  }

  /** The top-up a node accepts from its user also asks for a finalized deal. */
  predicate CanTopUp(st: State, id: Id, user: Addr, amount: nat) {
    CanReplayTopUp(st, id, user, amount) && !st.intents[id].deferred
  }

  function ToppedUp(st: State, id: Id, user: Addr, amount: nat, now: int): State
    requires CanReplayTopUp(st, id, user, amount)
  {
    var i := st.intents[id];
    var f := FundOf(st.funds, id, i, now);
    var acct := AcctOf(st.accounts, user);
    var m := i.(locked := i.locked + amount);
    State(st.accounts[user := Acct(acct.balance - amount, acct.locked + amount)],
          st.intents[id := m.(updated := now)],
          st.funds[id := f.(balance := SatAdd(f.balance, amount), contributed := SatAdd(f.contributed, amount), closed := false)],
          st.deals[id := ToppedUpDeal(DealOf(st.deals, id, m), m, now)],
          st.pool.(totalLocked := SatAdd(st.pool.totalLocked, amount), fundBalance := SatAdd(st.pool.fundBalance, amount)),
          st.stranded)
  }

  function TopUp(st: State, id: Id, user: Addr, amount: nat, now: int): State {
    if CanTopUp(st, id, user, amount) then ToppedUp(st, id, user, amount, now) else st
  }

  /** The same transaction as a block applies it. */
  function ReplayTopUp(st: State, id: Id, user: Addr, amount: nat, now: int): State {
    if CanReplayTopUp(st, id, user, amount) then ToppedUp(st, id, user, amount, now) else st
  }

  function Normalized(i: Intent): Intent {
    if i.expires == 0 && i.status == Finalized && i.duration > 0 && i.updated > 0
    then i.(expires := i.updated + i.duration) else i
  }

  predicate CanRenew(st: State, id: Id, user: Addr, duration: int, price: nat, now: int) {
    && duration > 0 && id in st.intents && st.intents[id].user == user && st.intents[id].renewable
    && price <= AcctOf(st.accounts, user).balance
    && var n := Normalized(st.intents[id]);
    && (n.status == Finalized || n.status == Expired)
    && ((n.status == Finalized && n.expires > now) || now <= n.expires + GRACE)
    && (n.duration > 0 ==> duration <= n.duration)
  }

  predicate CanAutoRenew(st: State, id: Id, price: nat, now: int) {
    && id in st.intents
    && var i := st.intents[id];
    && i.autoRenew && i.renewable && i.status == Finalized && i.active
    && i.expires <= now <= i.expires + GRACE
    && price <= AcctOf(st.accounts, i.user).balance
  }

  /** Both renewals: the price moves from the owner's balance into the deal. */
  function Renewed(st: State, id: Id, price: nat, n: Intent, now: int): State
    requires id in st.intents
  {
    var acct := AcctOf(st.accounts, n.user);
    var m := n.(locked := n.locked + price);
    st.(accounts := st.accounts[n.user := Acct(Sub(acct.balance, price), acct.locked + price)],
        intents := st.intents[id := m],
        deals := st.deals[id := ToppedUpDeal(DealOf(st.deals, id, m), m, now)],
        pool := st.pool.(totalLocked := SatAdd(st.pool.totalLocked, price)))
  }

  function Renew(st: State, id: Id, user: Addr, duration: int, price: nat, now: int): State {
    if !CanRenew(st, id, user, duration, price, now) then st
    else Renewed(st, id, price, st.intents[id].(status := Finalized, active := true, expires := now + duration,
                                                duration := duration, updated := now), now)
  }

  function AutoRenew(st: State, id: Id, price: nat, now: int): State {
    if !CanAutoRenew(st, id, price, now) then st
    else
      var i := st.intents[id];
      var d := if i.duration <= 0 then 30 * 86400 else i.duration;
      Renewed(st, id, price, i.(expires := now + d, updated := now), now)
  }

  /** Closing a permanent fund burns what it holds, or what its owner has locked if that is less. */
  function CloseFund(st: State, id: Id, now: int): (State, nat) {
    if id !in st.intents || !Permanent(st.intents[id]) || FundOf(st.funds, id, st.intents[id], now).closed then (st, 0)
    else
      var i := st.intents[id];
      var f := FundOf(st.funds, id, i, now);
      var acct := AcctOf(st.accounts, i.user);
      var burned := Min(f.balance, acct.locked);
      (st.(accounts := if burned == 0 then st.accounts
                       else st.accounts[i.user := acct.(locked := acct.locked - burned)],
           intents := st.intents[id := i.(burned := SatAdd(i.burned, burned))],
           funds := st.funds[id := f.(balance := 0, burned := SatAdd(f.burned, burned), closed := true)],
           pool := st.pool.(totalBurned := SatAdd(st.pool.totalBurned, burned),
                            fundBalance := Sub(st.pool.fundBalance, burned))), burned)
  }

  function Terminating(i: Intent, now: int): Intent { Normalized(i).(active := false, updated := now) }

  /** Burning what remains of a finite deal. The escrow record is brought up to date after the
      intent's burned fee has grown and then credited again. */
  function Burn(st: State, id: Id): (State, nat)
    requires id in st.intents
  {
    var i := st.intents[id];
    var acct := AcctOf(st.accounts, i.user);
    var burn := Min(Remaining(i), acct.locked);
    var n := i.(burned := SatAdd(i.burned, burn));
    var e := DealOf(st.deals, id, n);
    if burn == 0 then (st, 0)
    else (st.(accounts := st.accounts[i.user := acct.(locked := acct.locked - burn)],
              intents := st.intents[id := n],
              deals := st.deals[id := e.(burned := SatAdd(e.burned, burn))],
              pool := st.pool.(totalBurned := SatAdd(st.pool.totalBurned, burn))), burn)
  }

  /** Early termination burns what remains of the deal. */
  function Terminate(st: State, id: Id, now: int): (State, nat) {
    if id !in st.intents || st.intents[id].status == Deleted then (st, 0)
    else
      var st1 := st.(intents := st.intents[id := Terminating(st.intents[id], now)]);
      if Permanent(st.intents[id]) then CloseFund(st1, id, now) else Burn(st1, id)
  }

  /** A finite deal gets its expiry filled in before settlement looks at it, even if it is refused. */
  function Dated(i: Intent): Intent {
    if i.status == Finalized && i.duration > 0 && i.expires == 0 then i.(expires := i.updated + i.duration) else i
  }

  predicate Due(i: Intent, now: int) {
    match i.status
    case Uploading => now > i.deadline
    case Finalized => i.duration > 0 && now >= Dated(i).expires + GRACE
    case Expired => true
    case Deleted => false
  }

  /** A due deal that its policy retains is only suspended. */
  predicate Retained(i: Intent) { i.status == Finalized && i.retain }

  predicate CanSettle(i: Intent, now: int) { Due(i, now) && !Retained(i) }

  function Settling(i: Intent, now: int): Intent {
    if !Due(i, now) then Dated(i)
    else if Retained(i) then Dated(i).(updated := now)
    else Dated(i).(status := Expired, active := if i.status == Expired then i.active else false, updated := now)
  }

  function Refund(st: State, id: Id): State
    requires id in st.intents
  {
    var i := st.intents[id];
    var acct := AcctOf(st.accounts, i.user);
    var refund := Min(Remaining(i), acct.locked);
    var n := i.(refunded := i.refunded + refund);
    var e := DealOf(st.deals, id, n);
    if refund == 0 then st
    else st.(accounts := st.accounts[i.user := Acct(acct.balance + refund, acct.locked - refund)],
             intents := st.intents[id := n],
             deals := st.deals[id := e.(refunded := SatAdd(e.refunded, refund))],
             pool := st.pool.(totalRefunded := SatAdd(st.pool.totalRefunded, refund)))
  }

  function Marked(st: State, id: Id, n: Intent): State { st.(intents := st.intents[id := n]) }

  /** Settlement after expiry refunds what remains of the deal. */
  function Settle(st: State, id: Id, now: int): State {
    if id !in st.intents then st
    else if CanSettle(st.intents[id], now) then Refund(Marked(st, id, Settling(st.intents[id], now)), id)
    else Marked(st, id, Settling(st.intents[id], now))
  }

  datatype Op =
    | OpOpen(id: Id, intent: Intent)
    | OpFinalize(id: Id, retrieval: Addr, foundation: Addr, now: int)
    | OpSpendFinite(id: Id, requested: nat, now: int)
    | OpSpendPermanent(id: Id, requested: nat, now: int)
    | OpTopUp(id: Id, user: Addr, amount: nat, now: int)
    | OpReplayTopUp(id: Id, user: Addr, amount: nat, now: int)
    | OpRenew(id: Id, user: Addr, duration: int, price: nat, now: int)
    | OpAutoRenew(id: Id, price: nat, now: int)
    | OpCloseFund(id: Id, now: int)
    | OpTerminate(id: Id, now: int)
    | OpSettle(id: Id, now: int)

  function Step(st: State, op: Op): State {
    match op
    case OpOpen(id, i) => Open(st, id, i)
    case OpFinalize(id, r, f, now) => Finalize(st, id, r, f, now)
    case OpSpendFinite(id, x, now) => SpendFinite(st, id, x, now).0
    case OpSpendPermanent(id, x, now) => SpendPermanent(st, id, x, now).0
    case OpTopUp(id, u, x, now) => TopUp(st, id, u, x, now)
    case OpReplayTopUp(id, u, x, now) => ReplayTopUp(st, id, u, x, now)
    case OpRenew(id, u, d, p, now) => Renew(st, id, u, d, p, now)
    case OpAutoRenew(id, p, now) => AutoRenew(st, id, p, now)
    case OpCloseFund(id, now) => CloseFund(st, id, now).0
    case OpTerminate(id, now) => Terminate(st, id, now).0
    case OpSettle(id, now) => Settle(st, id, now)
  }

  // ---------------------------------------------------------------- the invariant

  /** What a deal still claims of what it locked. */
  function Claim(i: Intent): int { i.locked - Used(i) }

  function At(m: map<Id, nat>, id: Id): nat { if id in m then m[id] else 0 }

  /** What the deals of an owner keep locked: their claims, and what was stranded. */
  ghost function OwedBy(u: Addr, stranded: map<Id, nat>): (Id, Intent) -> int {
    (id: Id, i: Intent) => if i.user == u then Claim(i) + At(stranded, id) else 0
  }

  ghost predicate Covered(accounts: map<Addr, Acct>, intents: map<Id, Intent>, stranded: map<Id, nat>) {
    forall u :: AcctOf(accounts, u).locked == Sum(intents, OwedBy(u, stranded))
  }

  ghost predicate GoodIntent(i: Intent) {
    && Solvent(i)
    && (Permanent(i) ==> i.expires == 0)
    && (i.deferred ==> i.status != Finalized && i.expires == 0)
    && (Permanent(i) && !i.deferred ==> i.status == Finalized)
  }

  ghost predicate FundMatches(i: Intent, f: Fund) {
    Permanent(i) ==> f.balance == Remaining(i) && (f.closed ==> f.balance == 0)
  }

  ghost predicate Inv(st: State) {
    && Covered(st.accounts, st.intents, st.stranded)
    && (forall id | id in st.stranded :: id in st.intents && !st.intents[id].deferred)
    && (forall id | id in st.intents :: GoodIntent(st.intents[id]))
    && (forall id | id in st.intents && id in st.funds :: FundMatches(st.intents[id], st.funds[id]))
    && (forall id | id in st.funds :: id in st.intents)
    && (forall u | u in st.accounts :: st.accounts[u].balance + st.accounts[u].locked <= MAX_U64)
  }

  /** What users are promised: locked storage covers the deals, no deal spends more than it locked, and
      every permanent fund holds what remains of its deal. The rest of `Inv` is bookkeeping. */
  ghost predicate Promised(st: State) {
    && Covered(st.accounts, st.intents, st.stranded)
    && (forall id | id in st.intents :: Solvent(st.intents[id]))
    && (forall id | id in st.intents && id in st.funds && Permanent(st.intents[id]) :: st.funds[id].balance == Remaining(st.intents[id]))
  }

  lemma InvMeansPromised(st: State)
    requires Inv(st)
    ensures Promised(st)
  {
    forall id | id in st.intents ensures Solvent(st.intents[id]) { assert GoodIntent(st.intents[id]); }
    forall id | id in st.intents && id in st.funds && Permanent(st.intents[id]) ensures st.funds[id].balance == Remaining(st.intents[id]) {
      assert FundMatches(st.intents[id], st.funds[id]);
    }
  }

  /** Side conditions of a step: amounts fit in a uint64, and the clock is past the first week of the
      epoch. */
  ghost predicate Sized(st: State, op: Op) {
    match op
    case OpFinalize(id, _, _, _) => id in st.intents && st.intents[id].deferred ==> PayoutFits(st, st.intents[id].locked)
    case OpTopUp(id, _, x, _) => id in st.intents ==> st.intents[id].locked + x <= MAX_U64
    case OpReplayTopUp(id, _, x, _) => id in st.intents ==> st.intents[id].locked + x <= MAX_U64
    case OpRenew(id, _, _, p, now) => now > GRACE && (id in st.intents ==> st.intents[id].locked + p <= MAX_U64)
    case OpAutoRenew(id, p, now) => now > GRACE && (id in st.intents ==> st.intents[id].locked + p <= MAX_U64)
    case _ => true
  }

  ghost predicate PayoutFits(st: State, fee: nat) {
    forall u :: AcctOf(st.accounts, u).balance + AcctOf(st.accounts, u).locked + fee <= MAX_U64
  }

  /** The miner part of the fee still covers what was paid and refunded before, and the burn that
      finalizing records; and nothing was burned before. */
  predicate SafeToFinalize(i: Intent, retrieval: Addr, foundation: Addr) {
    var s := SplitOf(i.locked);
    i.burned == 0 && i.paid + i.refunded + FinalBurn(s, retrieval, foundation) <= s.miner
  }

  /** The fee is large enough for its shares not to round to nothing. */
  predicate Splits(fee: nat) { WrapMul(fee, SHARE_BPS) >= 10000 }

  /** A permanent deal whose fund is stored before the fee is distributed: a block topped it up, paid
      from it or closed it. */
  predicate FundedEarly(st: State, id: Id) {
    id in st.intents && st.intents[id].deferred && Permanent(st.intents[id]) && id in st.funds
  }

  /** Finalizing needs a safe deal and, if its fund is stored already, a fee that does not split;
      settling a deal whose fund is stored needs nothing to refund. Every other step is safe. */
  predicate Safe(st: State, op: Op) {
    op.id in st.intents && st.intents[op.id].deferred ==>
      var i := st.intents[op.id];
      match op
      case OpFinalize(id, r, f, _) => SafeToFinalize(i, r, f) && (FundedEarly(st, id) ==> !Splits(i.locked))
      case OpSettle(id, now) => FundedEarly(st, id) ==> !CanSettle(i, now) || Remaining(i) == 0
      case _ => true
  }

  ghost predicate Fits(st: State, op: Op) { Sized(st, op) && Safe(st, op) }

  /** Replacing one intent, and what is stranded for it, moves the sum by the difference. */
  lemma OwedMoves(intents: map<Id, Intent>, m: map<Id, nat>, m2: map<Id, nat>, id: Id, n: Intent, u: Addr)
    requires forall j | j in intents && j != id :: At(m2, j) == At(m, j)
    ensures Sum(intents[id := n], OwedBy(u, m2))
            == Sum(intents, OwedBy(u, m)) - (if id in intents then OwedBy(u, m)(id, intents[id]) else 0) + OwedBy(u, m2)(id, n)
  {
    SumPick(intents[id := n], OwedBy(u, m2), id);
    if id in intents {
      SumPick(intents, OwedBy(u, m), id);
      assert intents[id := n] - {id} == intents - {id};
    } else {
      assert intents[id := n] - {id} == intents;
    }
    SumCongruent(intents - {id}, OwedBy(u, m2), intents - {id}, OwedBy(u, m));
    assert id !in intents ==> intents - {id} == intents;
  }

  /** An intent and its owner's locked balance move together. */
  lemma MoveKeepsCovered(accounts: map<Addr, Acct>, intents: map<Id, Intent>, m: map<Id, nat>, m2: map<Id, nat>, id: Id, n: Intent, acct: Acct)
    requires Covered(accounts, intents, m) && forall j | j in intents && j != id :: At(m2, j) == At(m, j)
    requires id in intents ==> intents[id].user == n.user
    requires acct.locked == AcctOf(accounts, n.user).locked + Claim(n) + At(m2, id) - (if id in intents then Claim(intents[id]) + At(m, id) else 0)
    ensures Covered(accounts[n.user := acct], intents[id := n], m2)
  {
    forall u ensures AcctOf(accounts[n.user := acct], u).locked == Sum(intents[id := n], OwedBy(u, m2)) {
      OwedMoves(intents, m, m2, id, n, u);
      assert AcctOf(accounts, u).locked == Sum(intents, OwedBy(u, m));
    }
  }

  /** The owner's account covers what one intent still holds: no withdrawal clamp can bind. */
  lemma AccountCoversIntent(st: State, id: Id)
    requires Inv(st) && id in st.intents
    ensures var i := st.intents[id];
            && Remaining(i) == Claim(i)
            && Remaining(i) + At(st.stranded, id) <= AcctOf(st.accounts, i.user).locked
            && (Remaining(i) > 0 ==> i.user in st.accounts)
  {
    var i := st.intents[id];
    SolventRemaining(i);
    forall j | j in st.intents ensures 0 <= OwedBy(i.user, st.stranded)(j, st.intents[j]) { assert GoodIntent(st.intents[j]); }
    SumCovers(st.intents, OwedBy(i.user, st.stranded), id);
    assert AcctOf(st.accounts, i.user).locked == Sum(st.intents, OwedBy(i.user, st.stranded));
  }

  lemma FundHoldsRemaining(st: State, id: Id, now: int)
    requires Inv(st) && id in st.intents && Permanent(st.intents[id])
    ensures var f := FundOf(st.funds, id, st.intents[id], now);
            f.balance == Remaining(st.intents[id]) && (f.closed ==> f.balance == 0)
  {
  }

  /** What an operation on one deal relies on: the account covers the deal, and a stored fund holds
      what remains of it. */
  ghost predicate Backed(st: State, id: Id) {
    id in st.intents ==>
      var i := st.intents[id];
      var acct := AcctOf(st.accounts, i.user);
      && Solvent(i) && Remaining(i) <= acct.locked && acct.balance + acct.locked <= MAX_U64
      && (Permanent(i) && id in st.funds ==> st.funds[id].balance == Remaining(i))
  }

  /** The owner's account adds up within 64 bits. */
  predicate Words(st: State, id: Id) {
    id in st.intents ==> var acct := AcctOf(st.accounts, st.intents[id].user); acct.balance + acct.locked <= MAX_U64
  }

  lemma InvBacks(st: State, id: Id)
    requires Inv(st)
    ensures Backed(st, id)
  {
    if id in st.intents { AccountCoversIntent(st, id); }
  }

  /** Under the invariant no clamp binds: every withdrawal takes its full amount. */
  lemma ClampsNeverBind(st: State, id: Id, requested: nat, now: int)
    requires Inv(st) && id in st.intents && requested > 0
    ensures var i := st.intents[id];
            && (!Permanent(i) ==> SpendFinite(st, id, requested, now).1 == Draw(DealOf(st.deals, id, i), i, requested, now))
            && (Permanent(i) ==> SpendPermanent(st, id, requested, now).1 == Min(requested, Remaining(i)))
            && (Permanent(i) ==> CloseFund(st, id, now).1 == Remaining(i))
            && Burn(st, id).1 == Remaining(i)
            && Used(Refund(st, id).intents[id]) == i.locked
  {
    AccountCoversIntent(st, id);
    if Permanent(st.intents[id]) { FundHoldsRemaining(st, id, now); }
  }

  /** Replacing one intent, its owner's account and possibly its fund, with everything else in place. */
  ghost predicate Replaces(st: State, end: State, id: Id, n: Intent, acct: Acct) {
    && end.accounts == st.accounts[n.user := acct]
    && end.intents == st.intents[id := n] && end.stranded == st.stranded
    && (end.funds == st.funds || (id in end.funds && end.funds == st.funds[id := end.funds[id]]))
  }

  lemma ReplaceKeepsInv(st: State, end: State, id: Id, n: Intent, acct: Acct)
    requires Inv(st) && Replaces(st, end, id, n, acct)
    requires id in st.intents && st.intents[id].user == n.user && st.intents[id].deferred == n.deferred
    requires acct.locked == AcctOf(st.accounts, n.user).locked + Claim(n) - Claim(st.intents[id])
    requires acct.balance + acct.locked <= MAX_U64
    requires GoodIntent(n) && (id in end.funds ==> FundMatches(n, end.funds[id]))
    ensures Inv(end)
  {
    MoveKeepsCovered(st.accounts, st.intents, st.stranded, st.stranded, id, n, acct);
  }

  lemma OpenKeepsInv(st: State, id: Id, i: Intent)
    requires Inv(st)
    ensures Inv(Open(st, id, i))
  {
    var acct := AcctOf(st.accounts, i.user);
    if Open(st, id, i) != st {
      MoveKeepsCovered(st.accounts, st.intents, st.stranded, st.stranded, id, i, Acct(acct.balance - i.locked, acct.locked + i.locked));
    }
  }

  lemma SpendFiniteKeepsInv(st: State, id: Id, requested: nat, now: int)
    requires Inv(st)
    ensures Inv(SpendFinite(st, id, requested, now).0)
  {
    if id in st.intents && requested > 0 && !Permanent(st.intents[id]) {
      var i := st.intents[id];
      AccountCoversIntent(st, id);
      var (end, amount) := SpendFinite(st, id, requested, now);
      var acct := AcctOf(st.accounts, i.user);
      if amount > 0 {
        ReplaceKeepsInv(st, end, id, Spent(i, amount), acct.(locked := acct.locked - amount));
      }
    }
  }

  lemma SpendPermanentKeepsInv(st: State, id: Id, requested: nat, now: int)
    requires Inv(st)
    ensures Inv(SpendPermanent(st, id, requested, now).0)
  {
    if id in st.intents && requested > 0 && Permanent(st.intents[id]) {
      var i := st.intents[id];
      AccountCoversIntent(st, id);
      FundHoldsRemaining(st, id, now);
      var (end, amount) := SpendPermanent(st, id, requested, now);
      var acct := AcctOf(st.accounts, i.user);
      if amount > 0 {
        SolventRemaining(Spent(i, amount));
        ReplaceKeepsInv(st, end, id, Spent(i, amount), acct.(locked := acct.locked - amount));
      }
    }
  }

  /** A top-up keeps the invariant whether or not the deal was finalized. */
  lemma ToppedUpKeepsInv(st: State, id: Id, user: Addr, amount: nat, now: int)
    requires Inv(st) && CanReplayTopUp(st, id, user, amount) && st.intents[id].locked + amount <= MAX_U64
    ensures Inv(ToppedUp(st, id, user, amount, now))
  {
    AccountCoversIntent(st, id);
    FundHoldsRemaining(st, id, now);
    var end := ToppedUp(st, id, user, amount, now);
    SolventRemaining(end.intents[id]);
    ReplaceKeepsInv(st, end, id, end.intents[id], end.accounts[user]);
  }

  lemma TopUpKeepsInv(st: State, id: Id, user: Addr, amount: nat, now: int)
    requires Inv(st) && Fits(st, OpTopUp(id, user, amount, now))
    ensures Inv(TopUp(st, id, user, amount, now))
  {
    if CanTopUp(st, id, user, amount) { ToppedUpKeepsInv(st, id, user, amount, now); }
  }

  /** A replayed top-up of a deal that is not finalized yet keeps coverage, solvency and the fund; it
      is what comes after that can break them. */
  lemma ReplayedTopUpKeepsInv(st: State, id: Id, user: Addr, amount: nat, now: int)
    requires Inv(st) && Fits(st, OpReplayTopUp(id, user, amount, now))
    ensures Inv(ReplayTopUp(st, id, user, amount, now))
  {
    if CanReplayTopUp(st, id, user, amount) { ToppedUpKeepsInv(st, id, user, amount, now); }
  }

  /** Finalizing a deal funded too early leaves its fund with more than the deal, by the shares that
      left and the burn: the two agree exactly when the fee does not split. */
  lemma EarlyTopUpOverstatesFund(st: State, id: Id, retrieval: Addr, foundation: Addr, now: int)
    requires Inv(st) && FundedEarly(st, id) && SafeToFinalize(st.intents[id], retrieval, foundation)
    ensures var i, end := st.intents[id], DistributeFee(st, id, retrieval, foundation, now);
            var s := SplitOf(i.locked);
            && id in end.funds && id in end.intents
            && end.funds[id].balance == Remaining(end.intents[id]) + (i.locked - s.miner) + FinalBurn(s, retrieval, foundation)
            && (end.funds[id].balance == Remaining(end.intents[id]) <==> !Splits(i.locked))
  {
    var i := st.intents[id];
    SplitIsThirds(i.locked, retrieval, foundation);
    QuotientZero(WrapMul(i.locked, SHARE_BPS), 10000);
    SolventRemaining(i);
    SolventRemaining(FinalizedIntent(i, retrieval, foundation, now));
  }

  /** Settling one refunds it and leaves the fund as it is: the two agree exactly when nothing was
      refunded. */
  lemma EarlyTopUpSurvivesSettlement(st: State, id: Id, now: int)
    requires Inv(st) && FundedEarly(st, id)
    ensures var i, end := st.intents[id], Settle(st, id, now);
            && id in end.funds && id in end.intents
            && (end.funds[id].balance == Remaining(end.intents[id]) <==> !CanSettle(i, now) || Remaining(i) == 0)
  {
    var i := st.intents[id];
    var n := Settling(i, now);
    SettlingIsGood(i, now);
    SameMoneyRemains(i, n);
    SolventRemaining(n);
    AccountCoversIntent(st, id);
    if CanSettle(i, now) { SolventRemaining(n.(refunded := n.refunded + Remaining(n))); }
  }

  lemma RenewedKeepsInv(st: State, id: Id, price: nat, n: Intent, now: int)
    requires Inv(st) && id in st.intents && !Permanent(st.intents[id]) && !st.intents[id].deferred && n.duration > 0
    requires n.user == st.intents[id].user && n.deferred == st.intents[id].deferred
    requires n.locked == st.intents[id].locked && Used(n) == Used(st.intents[id])
    requires n.locked + price <= MAX_U64 && price <= AcctOf(st.accounts, n.user).balance
    ensures Inv(Renewed(st, id, price, n, now))
  {
    var end := Renewed(st, id, price, n, now);
    ReplaceKeepsInv(st, end, id, end.intents[id], end.accounts[n.user]);
  }

  lemma RenewKeepsInv(st: State, id: Id, user: Addr, duration: int, price: nat, now: int)
    requires Inv(st) && Fits(st, OpRenew(id, user, duration, price, now))
    ensures Inv(Renew(st, id, user, duration, price, now))
  {
    if CanRenew(st, id, user, duration, price, now) {
      var n := st.intents[id].(status := Finalized, active := true, expires := now + duration,
                               duration := duration, updated := now);
      RenewedKeepsInv(st, id, price, n, now);
    }
  }

  /** Past the first week only a finite deal that was finalized renews itself. */
  lemma AutoRenewIsFinite(st: State, id: Id, price: nat, now: int)
    requires CanAutoRenew(st, id, price, now) && GoodIntent(st.intents[id]) && now > GRACE
    ensures !Permanent(st.intents[id]) && !st.intents[id].deferred
    ensures AutoRenew(st, id, price, now)
            == Renewed(st, id, price, st.intents[id].(expires := now + st.intents[id].duration, updated := now), now)
  {
  }

  lemma AutoRenewKeepsInv(st: State, id: Id, price: nat, now: int)
    requires Inv(st) && Fits(st, OpAutoRenew(id, price, now))
    ensures Inv(AutoRenew(st, id, price, now))
  {
    if CanAutoRenew(st, id, price, now) {
      AutoRenewIsFinite(st, id, price, now);
      RenewedKeepsInv(st, id, price, st.intents[id].(expires := now + st.intents[id].duration, updated := now), now);
    }
  }

  lemma CloseFundKeepsInv(st: State, id: Id, now: int)
    requires Inv(st)
    ensures Inv(CloseFund(st, id, now).0)
  {
    if id in st.intents && Permanent(st.intents[id]) {
      var i := st.intents[id];
      AccountCoversIntent(st, id);
      FundHoldsRemaining(st, id, now);
      var (end, burned) := CloseFund(st, id, now);
      var acct := AcctOf(st.accounts, i.user);
      if !FundOf(st.funds, id, i, now).closed {
        SolventRemaining(end.intents[id]);
        if burned > 0 {
          ReplaceKeepsInv(st, end, id, end.intents[id], acct.(locked := acct.locked - burned));
        } else {
          SameLiabilityKeepsInv(st, end, id, end.intents[id]);
        }
      }
    }
  }

  /** Changing fields of an intent that carry no money. */
  lemma SameLiabilityKeepsInv(st: State, end: State, id: Id, n: Intent)
    requires Inv(st) && id in st.intents && n.user == st.intents[id].user && n.deferred == st.intents[id].deferred
    requires end.accounts == st.accounts && end.intents == st.intents[id := n] && end.stranded == st.stranded
    requires end.funds == st.funds || (id in end.funds && end.funds == st.funds[id := end.funds[id]])
    requires GoodIntent(n) && Claim(n) == Claim(st.intents[id])
    requires id in end.funds ==> FundMatches(n, end.funds[id])
    ensures Inv(end)
  {
    forall u ensures AcctOf(end.accounts, u).locked == Sum(end.intents, OwedBy(u, end.stranded)) {
      OwedMoves(st.intents, st.stranded, st.stranded, id, n, u);
      assert AcctOf(st.accounts, u).locked == Sum(st.intents, OwedBy(u, st.stranded));
    }
  }

  lemma TerminateKeepsInv(st: State, id: Id, now: int)
    requires Inv(st)
    ensures Inv(Terminate(st, id, now).0)
  {
    if id in st.intents && st.intents[id].status != Deleted {
      var i := Terminating(st.intents[id], now);
      var st1 := st.(intents := st.intents[id := i]);
      SameLiabilityKeepsInv(st, st1, id, i);
      if Permanent(i) {
        CloseFundKeepsInv(st1, id, now);
      } else {
        BurnKeepsInv(st1, id);
      }
    }
  }

  lemma BurnKeepsInv(st: State, id: Id)
    requires Inv(st) && id in st.intents && !Permanent(st.intents[id])
    ensures Inv(Burn(st, id).0)
  {
    AccountCoversIntent(st, id);
    var (end, burn) := Burn(st, id);
    if burn > 0 {
      var i := st.intents[id];
      var acct := AcctOf(st.accounts, i.user);
      ReplaceKeepsInv(st, end, id, i.(burned := i.burned + burn), acct.(locked := acct.locked - burn));
    }
  }

  /** A mark that moves no money: status, activity and times only. */
  predicate SameMoney(i: Intent, n: Intent) {
    n == i.(status := n.status, active := n.active, updated := n.updated, expires := n.expires)
  }

  lemma SameMoneyRemains(i: Intent, n: Intent)
    requires SameMoney(i, n)
    ensures Remaining(n) == Remaining(i) && n.deferred == i.deferred && Permanent(n) == Permanent(i)
  {
  }

  lemma TerminatingIsGood(i: Intent, now: int)
    requires GoodIntent(i)
    ensures SameMoney(i, Terminating(i, now)) && GoodIntent(Terminating(i, now)) && Remaining(Terminating(i, now)) == Remaining(i)
  {
  }

  lemma SettlingIsGood(i: Intent, now: int)
    requires GoodIntent(i)
    ensures SameMoney(i, Settling(i, now)) && GoodIntent(Settling(i, now))
    ensures CanSettle(i, now) ==> !Permanent(i) || i.deferred
  {
  }

  lemma MarkKeepsInv(st: State, id: Id, n: Intent)
    requires Inv(st) && id in st.intents && GoodIntent(n) && SameMoney(st.intents[id], n)
    ensures Inv(Marked(st, id, n))
  {
    SameLiabilityKeepsInv(st, Marked(st, id, n), id, n);
  }

  lemma SettlingMovesNoMoney(i: Intent, now: int)
    ensures SameMoney(i, Settling(i, now))
  {
    DatingMovesNoMoney(i);
  }

  lemma DatingMovesNoMoney(i: Intent)
    ensures Dated(i) == i.(expires := Dated(i).expires)
  {
  }

  lemma SettleKeepsInv(st: State, id: Id, now: int)
    requires Inv(st) && Safe(st, OpSettle(id, now))
    ensures Inv(Settle(st, id, now))
  {
    if id in st.intents {
      var n := Settling(st.intents[id], now);
      SettlingIsGood(st.intents[id], now);
      SameMoneyRemains(st.intents[id], n);
      MarkKeepsInv(st, id, n);
      if CanSettle(st.intents[id], now) { RefundKeepsInv(Marked(st, id, n), id); }
    }
  }

  /** Settling keeps the invariant exactly when it is safe: not when it refunds a deal whose fund is
      stored already. */
  lemma SettleKeepsInvExactly(st: State, id: Id, now: int)
    requires Inv(st)
    ensures Inv(Settle(st, id, now)) <==> Safe(st, OpSettle(id, now))
    ensures Promised(Settle(st, id, now)) <==> Safe(st, OpSettle(id, now))
  {
    if Safe(st, OpSettle(id, now)) {
      SettleKeepsInv(st, id, now);
      InvMeansPromised(Settle(st, id, now));
    } else {
      EarlyTopUpSurvivesSettlement(st, id, now);
      StillPermanent(st, id, now);
    }
  }

  lemma StillPermanent(st: State, id: Id, now: int)
    requires id in st.intents && Permanent(st.intents[id])
    ensures id in Settle(st, id, now).intents && Permanent(Settle(st, id, now).intents[id])
  {
    SettlingMovesNoMoney(st.intents[id], now);
  }

  lemma RefundKeepsInv(st: State, id: Id)
    requires Inv(st) && id in st.intents && (Permanent(st.intents[id]) ==> st.intents[id].deferred)
    requires FundedEarly(st, id) ==> Remaining(st.intents[id]) == 0
    ensures Inv(Refund(st, id))
  {
    AccountCoversIntent(st, id);
    var i, end := st.intents[id], Refund(st, id);
    var refund := Remaining(i);
    if refund > 0 {
      var acct := AcctOf(st.accounts, i.user);
      ReplaceKeepsInv(st, end, id, i.(refunded := i.refunded + refund), Acct(acct.balance + refund, acct.locked - refund));
    }
  }

  // ---------------------------------------------------------------- finalizing

  lemma PayingKeepsLocked(accounts: map<Addr, Acct>, a: Addr, amount: nat, u: Addr)
    ensures AcctOf(Paying(accounts, a, amount), u).locked == AcctOf(accounts, u).locked
    ensures AcctOf(accounts, u).balance <= AcctOf(Paying(accounts, a, amount), u).balance <= AcctOf(accounts, u).balance + amount
  {
  }

  lemma SplitIsThirds(total: nat, retrieval: Addr, foundation: Addr)
    ensures var s := SplitOf(total);
            total - s.miner == 3 * s.burn && s.burn <= FinalBurn(s, retrieval, foundation) <= total - s.miner
  {
  }

  /** A finalized deal is solvent exactly when the miner part covers what it records as used. */
  lemma FinalizedIsGood(i: Intent, retrieval: Addr, foundation: Addr, now: int)
    requires GoodIntent(i) && i.deferred
    ensures var n, s := FinalizedIntent(i, retrieval, foundation, now), SplitOf(i.locked);
            && n.user == i.user && n.duration == i.duration
            && Claim(n) == Claim(i) + i.burned - (i.locked - s.miner) - FinalBurn(s, retrieval, foundation)
            && (GoodIntent(n) <==> i.paid + i.refunded + FinalBurn(s, retrieval, foundation) <= s.miner)
            && (Solvent(n) <==> i.paid + i.refunded + FinalBurn(s, retrieval, foundation) <= s.miner)
  {
  }

  /** The shares that leave with a finalized deal change balances only. */
  lemma PaidOutAccounts(st: State, retrieval: Addr, x: nat, foundation: Addr, y: nat)
    requires Covered(st.accounts, st.intents, st.stranded)
    ensures Covered(Paying(Paying(st.accounts, retrieval, x), foundation, y), st.intents, st.stranded)
  {
    var one := Paying(st.accounts, retrieval, x);
    var paid := Paying(one, foundation, y);
    forall u ensures AcctOf(paid, u).locked == Sum(st.intents, OwedBy(u, st.stranded)) {
      PayingKeepsLocked(st.accounts, retrieval, x, u);
      PayingKeepsLocked(one, foundation, y, u);
      assert AcctOf(st.accounts, u).locked == Sum(st.intents, OwedBy(u, st.stranded));
    }
  }

  /** With `z` counted as stranded, the distribution keeps locked storage covered exactly when `z` and
      what was burned before make up the new burn and what the clamp on the owner's account withholds. */
  lemma DistributionCovers(st: State, id: Id, retrieval: Addr, foundation: Addr, now: int, z: nat)
    requires Inv(st) && id in st.intents && st.intents[id].deferred
    ensures var i, end := st.intents[id], DistributeFee(st, id, retrieval, foundation, now);
            var s := SplitOf(i.locked);
            Covered(end.accounts, end.intents, st.stranded[id := z])
            <==> i.burned + z == FinalBurn(s, retrieval, foundation) + Sub(i.locked - s.miner, AcctOf(st.accounts, i.user).locked)
  {
    var i, end := st.intents[id], DistributeFee(st, id, retrieval, foundation, now);
    var s, u, m := SplitOf(i.locked), i.user, st.stranded[id := z];
    var n := FinalizedIntent(i, retrieval, foundation, now);
    var paid := Paying(Paying(st.accounts, retrieval, s.retrieval), foundation, s.foundation);
    FinalizedIsGood(i, retrieval, foundation, now);
    PaidOutAccounts(st, retrieval, s.retrieval, foundation, s.foundation);
    assert At(st.stranded, id) == 0;
    OwedMoves(st.intents, st.stranded, m, id, n, u);
    assert AcctOf(st.accounts, u).locked == Sum(st.intents, OwedBy(u, st.stranded));
    assert AcctOf(paid, u).locked == Sum(st.intents, OwedBy(u, st.stranded));
    if i.burned + z == FinalBurn(s, retrieval, foundation) + Sub(i.locked - s.miner, AcctOf(st.accounts, u).locked) {
      MoveKeepsCovered(paid, st.intents, st.stranded, m, id, n, end.accounts[u]);
    } else {
      assert AcctOf(end.accounts, u).locked != Sum(end.intents, OwedBy(u, m));
    }
  }

  /** The distribution keeps locked storage covered exactly when what was burned before is what the
      clamp on the owner's account lets slip: nothing, unless the account has less locked than
      leaves it. */
  lemma FinalizeCoversExactly(st: State, id: Id, retrieval: Addr, foundation: Addr, now: int)
    requires Inv(st) && id in st.intents && st.intents[id].deferred
    ensures var i, end := st.intents[id], DistributeFee(st, id, retrieval, foundation, now);
            Covered(end.accounts, end.intents, end.stranded)
            <==> i.burned == Sub(i.locked - SplitOf(i.locked).miner, AcctOf(st.accounts, i.user).locked)
  {
    DistributionCovers(st, id, retrieval, foundation, now, FinalBurn(SplitOf(st.intents[id].locked), retrieval, foundation));
  }

  /** A safe deal leaves enough locked on the account; an unsafe one that ends solvent cannot end covered. */
  lemma SafeMeansCovered(st: State, id: Id, retrieval: Addr, foundation: Addr)
    requires Inv(st) && id in st.intents && st.intents[id].deferred
    ensures var i := st.intents[id];
            var s := SplitOf(i.locked);
            SafeToFinalize(i, retrieval, foundation)
            <==> i.burned == Sub(i.locked - s.miner, AcctOf(st.accounts, i.user).locked)
                 && i.paid + i.refunded + FinalBurn(s, retrieval, foundation) <= s.miner
  {
    SplitIsThirds(st.intents[id].locked, retrieval, foundation);
    AccountCoversIntent(st, id);
  }

  /** The fund a safe distribution stores holds what remains of the deal. */
  lemma DistributedFundMatches(st: State, id: Id, retrieval: Addr, foundation: Addr, now: int)
    requires Inv(st) && id in st.intents && st.intents[id].deferred && SafeToFinalize(st.intents[id], retrieval, foundation)
    requires FundedEarly(st, id) ==> !Splits(st.intents[id].locked)
    ensures var n := FinalizedIntent(st.intents[id], retrieval, foundation, now);
            FundMatches(n, FundOf(st.funds, id, n, now)) && (id in st.funds && !Permanent(n) ==> FundMatches(n, st.funds[id]))
  {
    var i := st.intents[id];
    var n := FinalizedIntent(i, retrieval, foundation, now);
    FinalizedIsGood(i, retrieval, foundation, now);
    SolventRemaining(n);
    if FundedEarly(st, id) { EarlyTopUpOverstatesFund(st, id, retrieval, foundation, now); }
  }

  lemma DistributeKeepsInv(st: State, id: Id, retrieval: Addr, foundation: Addr, now: int)
    requires Inv(st) && id in st.intents && st.intents[id].deferred && PayoutFits(st, st.intents[id].locked)
    requires Safe(st, OpFinalize(id, retrieval, foundation, now))
    ensures Inv(DistributeFee(st, id, retrieval, foundation, now))
  {
    var i, end := st.intents[id], DistributeFee(st, id, retrieval, foundation, now);
    var s := SplitOf(i.locked);
    SafeMeansCovered(st, id, retrieval, foundation);
    FinalizeCoversExactly(st, id, retrieval, foundation, now);
    FinalizedIsGood(i, retrieval, foundation, now);
    DistributedFundMatches(st, id, retrieval, foundation, now);
    DistributedAccountsFit(st, id, retrieval, foundation, now);
  }

  lemma DistributedAccountsFit(st: State, id: Id, retrieval: Addr, foundation: Addr, now: int)
    requires Inv(st) && id in st.intents && PayoutFits(st, st.intents[id].locked)
    ensures var end := DistributeFee(st, id, retrieval, foundation, now);
            forall u | u in end.accounts :: end.accounts[u].balance + end.accounts[u].locked <= MAX_U64
  {
    var i, end := st.intents[id], DistributeFee(st, id, retrieval, foundation, now);
    var s := SplitOf(i.locked);
    var one := Paying(st.accounts, retrieval, s.retrieval);
    forall u | u in end.accounts ensures end.accounts[u].balance + end.accounts[u].locked <= MAX_U64 {
      PayingKeepsLocked(st.accounts, retrieval, s.retrieval, u);
      PayingKeepsLocked(one, foundation, s.foundation, u);
      assert AcctOf(st.accounts, u).balance + AcctOf(st.accounts, u).locked + i.locked <= MAX_U64;
    }
  }

  /** Finalizing keeps the ledger invariant exactly when it is safe: covered, solvent, and with a fund
      that matches. */
  lemma FinalizeKeepsInvExactly(st: State, id: Id, retrieval: Addr, foundation: Addr, now: int)
    requires Inv(st) && id in st.intents && st.intents[id].deferred && PayoutFits(st, st.intents[id].locked)
    ensures Inv(Finalize(st, id, retrieval, foundation, now))
            <==> SafeToFinalize(st.intents[id], retrieval, foundation) && (FundedEarly(st, id) ==> !Splits(st.intents[id].locked))
    ensures Promised(Finalize(st, id, retrieval, foundation, now)) <==> Inv(Finalize(st, id, retrieval, foundation, now))
  {
    var i, end := st.intents[id], DistributeFee(st, id, retrieval, foundation, now);
    assert GoodIntent(i);
    if Safe(st, OpFinalize(id, retrieval, foundation, now)) {
      DistributeKeepsInv(st, id, retrieval, foundation, now);
      InvMeansPromised(end);
    } else if SafeToFinalize(i, retrieval, foundation) {
      EarlyTopUpOverstatesFund(st, id, retrieval, foundation, now);
      assert Permanent(end.intents[id]);
    } else {
      SafeMeansCovered(st, id, retrieval, foundation);
      FinalizeCoversExactly(st, id, retrieval, foundation, now);
      FinalizedIsGood(i, retrieval, foundation, now);
      assert end.intents[id] == FinalizedIntent(i, retrieval, foundation, now);
    }
  }

  lemma FinalizeKeepsInv(st: State, id: Id, retrieval: Addr, foundation: Addr, now: int)
    requires Inv(st) && Fits(st, OpFinalize(id, retrieval, foundation, now))
    ensures Inv(Finalize(st, id, retrieval, foundation, now))
  {
    if id in st.intents && st.intents[id].status != Finalized {
      if st.intents[id].deferred {
        FinalizeKeepsInvExactly(st, id, retrieval, foundation, now);
      } else {
        MarkKeepsInv(st, id, Reactivated(st.intents[id], now));
      }
    }
  }

  // ---------------------------------------------------------------- runs

  lemma StepKeepsInv(st: State, op: Op)
    requires Inv(st) && Fits(st, op)
    ensures Inv(Step(st, op))
  {
    match op
    case OpOpen(id, i) => OpenKeepsInv(st, id, i);
    case OpFinalize(id, r, f, now) => FinalizeKeepsInv(st, id, r, f, now);
    case OpSpendFinite(id, x, now) => SpendFiniteKeepsInv(st, id, x, now);
    case OpSpendPermanent(id, x, now) => SpendPermanentKeepsInv(st, id, x, now);
    case OpTopUp(id, u, x, now) => TopUpKeepsInv(st, id, u, x, now);
    case OpReplayTopUp(id, u, x, now) => ReplayedTopUpKeepsInv(st, id, u, x, now);
    case OpRenew(id, u, d, p, now) => RenewKeepsInv(st, id, u, d, p, now);
    case OpAutoRenew(id, p, now) => AutoRenewKeepsInv(st, id, p, now);
    case OpCloseFund(id, now) => CloseFundKeepsInv(st, id, now);
    case OpTerminate(id, now) => TerminateKeepsInv(st, id, now);
    case OpSettle(id, now) => SettleKeepsInv(st, id, now);
  }

  function Run(st: State, ops: seq<Op>): State
    decreases |ops|
  {
    if ops == [] then st else Run(Step(st, ops[0]), ops[1..])
  }

  ghost predicate RunFits(st: State, ops: seq<Op>)
    decreases |ops|
  {
    ops == [] || (Fits(st, ops[0]) && RunFits(Step(st, ops[0]), ops[1..]))
  }

  /** Escrow solvency over every run: each owner's locked balance is what the owner's deals still
      hold plus what finalizing stranded, no deal spends more than it locked, and every permanent
      fund holds exactly what remains of its deal. */
  lemma {:induction false} RunKeepsInv(st: State, ops: seq<Op>)
    requires Inv(st) && RunFits(st, ops)
    ensures Inv(Run(st, ops))
    decreases |ops|
  {
    if ops != [] {
      StepKeepsInv(st, ops[0]);
      RunKeepsInv(Step(st, ops[0]), ops[1..]);
    }
  }

  ghost predicate RunSized(st: State, ops: seq<Op>)
    decreases |ops|
  {
    ops == [] || (Sized(st, ops[0]) && RunSized(Step(st, ops[0]), ops[1..]))
  }

  predicate RunSafe(st: State, ops: seq<Op>)
    decreases |ops|
  {
    ops == [] || (Safe(st, ops[0]) && RunSafe(Step(st, ops[0]), ops[1..]))
  }

  ghost predicate PromisedThroughout(st: State, ops: seq<Op>)
    decreases |ops|
  {
    Promised(st) && (ops == [] || PromisedThroughout(Step(st, ops[0]), ops[1..]))
  }

  lemma StepKeepsInvExactly(st: State, op: Op)
    requires Inv(st) && Sized(st, op)
    ensures Inv(Step(st, op)) <==> Safe(st, op)
    ensures Promised(Step(st, op)) <==> Safe(st, op)
  {
    if Safe(st, op) {
      StepKeepsInv(st, op);
      InvMeansPromised(Step(st, op));
    } else if op.OpFinalize? {
      FinalizeKeepsInvExactly(st, op.id, op.retrieval, op.foundation, op.now);
    } else {
      SettleKeepsInvExactly(st, op.id, op.now);
    }
  }

  /** Coverage, solvency and matching funds hold at every point of a run if and only if every deal was
      safe when it was finalized or settled: those are the only steps that can break them. */
  lemma {:induction false} RunKeepsInvExactly(st: State, ops: seq<Op>)
    requires Inv(st) && RunSized(st, ops)
    ensures PromisedThroughout(st, ops) <==> RunSafe(st, ops)
    decreases |ops|
  {
    InvMeansPromised(st);
    if ops != [] {
      StepKeepsInvExactly(st, ops[0]);
      if Safe(st, ops[0]) { RunKeepsInvExactly(Step(st, ops[0]), ops[1..]); }
    }
  }

  /** An upload that missed its deadline and was refunded is safe to finalize only if its fee is too
      small to be split. */
  lemma SettledUploadIsUnsafe(st: State, id: Id, now: int, retrieval: Addr, foundation: Addr)
    requires Inv(st) && id in st.intents && st.intents[id].deferred && CanSettle(st.intents[id], now)
    ensures id in Settle(st, id, now).intents && Settle(st, id, now).intents[id].deferred
    ensures SafeToFinalize(Settle(st, id, now).intents[id], retrieval, foundation)
            <==> st.intents[id].burned == 0 && WrapMul(st.intents[id].locked, SHARE_BPS) < 10000
  {
    var i := st.intents[id];
    AccountCoversIntent(st, id);
    SettledIntent(st, id, now);
    SettlingMovesNoMoney(i, now);
    FullySpentIsUnsafe(Settle(st, id, now).intents[id], retrieval, foundation);
  }

  /** What settling makes of a deal that is due. */
  lemma SettledIntent(st: State, id: Id, now: int)
    requires id in st.intents && CanSettle(st.intents[id], now)
    requires Remaining(st.intents[id]) <= AcctOf(st.accounts, st.intents[id].user).locked
    ensures var i, end := st.intents[id], Settle(st, id, now);
            id in end.intents && end.intents[id] == Settling(i, now).(refunded := i.refunded + Remaining(i))
  {
    SettlingMovesNoMoney(st.intents[id], now);
    SameMoneyRemains(st.intents[id], Settling(st.intents[id], now));
  }

  /** With nothing left of its fee, a deal is safe to finalize only if the shares round to nothing. */
  lemma FullySpentIsUnsafe(i: Intent, retrieval: Addr, foundation: Addr)
    requires Used(i) == i.locked
    ensures SafeToFinalize(i, retrieval, foundation) <==> i.burned == 0 && WrapMul(i.locked, SHARE_BPS) < 10000
  {
    SplitIsThirds(i.locked, retrieval, foundation);
    QuotientZero(WrapMul(i.locked, SHARE_BPS), 10000);
  }

  /** The run open, settle, finalize: the deal ends with 910 locked, 1000 refunded and 90 burned. */
  lemma SettledThenFinalized(u: Addr, id: Id)
    ensures var i := Intent(u, 1000, 0, 0, 0, true, 86400, Uploading, false, false, false, false, 1, 1, 0, 10);
            var st := State(map[u := Acct(1000, 0)], map[], map[], map[], Pool(0, 0, 0, 0, 0), map[]);
            var end := Step(Step(Step(st, OpOpen(id, i)), OpSettle(id, 11)), OpFinalize(id, "", "", 12));
            && id in end.intents && !Inv(end)
            && end.intents[id].locked == 910 && end.intents[id].refunded == 1000 && end.intents[id].burned == 90
  {
    var i := Intent(u, 1000, 0, 0, 0, true, 86400, Uploading, false, false, false, false, 1, 1, 0, 10);
    var st := State(map[u := Acct(1000, 0)], map[], map[], map[], Pool(0, 0, 0, 0, 0), map[]);
    var s1 := Step(st, OpOpen(id, i));
    assert s1.intents == map[id := i];
    var s2 := Step(s1, OpSettle(id, 11));
    SettledIntent(s1, id, 11);
    assert s2.intents[id] == i.(status := Expired, updated := 11, refunded := 1000);
    FinalizedRefund(s2, id);
  }

  lemma FinalizedRefund(st: State, id: Id)
    requires id in st.intents
    requires var i := st.intents[id];
             i.deferred && i.status == Expired && i.locked == 1000 && i.refunded == 1000 && i.paid == 0
    ensures var end := Step(st, OpFinalize(id, "", "", 12));
            && id in end.intents && !Inv(end)
            && end.intents[id].locked == 910 && end.intents[id].refunded == 1000 && end.intents[id].burned == 90
  {
    assert WrapMul(1000, SHARE_BPS) == 300000;
    var n := FinalizedIntent(st.intents[id], "", "", 12);
    assert n.locked == 910 && n.burned == 90 && !Solvent(n);
    assert Step(st, OpFinalize(id, "", "", 12)).intents[id] == n;
  }

  // ---------------------------------------------------------------- what finalizing strands

  ghost function RemainingOf(u: Addr): (Id, Intent) -> int { (id: Id, i: Intent) => if i.user == u then Remaining(i) else 0 }
  ghost function StrandedOf(u: Addr, m: map<Id, nat>): (Id, Intent) -> int { (id: Id, i: Intent) => if i.user == u then At(m, id) else 0 }

  ghost predicate AnyStranded(st: State, u: Addr) {
    exists id :: id in st.intents && st.intents[id].user == u && At(st.stranded, id) != 0
  }

  /** Locked storage exceeds the remaining escrow of the owner's deals by exactly the burns recorded
      when they were finalized. */
  lemma LockedExceedsRemainingByStranded(st: State, u: Addr)
    requires Inv(st)
    ensures AcctOf(st.accounts, u).locked == Sum(st.intents, RemainingOf(u)) + Sum(st.intents, StrandedOf(u, st.stranded))
    ensures AcctOf(st.accounts, u).locked == Sum(st.intents, RemainingOf(u)) <==> !AnyStranded(st, u)
  {
    forall id | id in st.intents ensures Remaining(st.intents[id]) == Claim(st.intents[id]) {
      SolventRemaining(st.intents[id]);
    }
    SumLinear(st.intents, 1, RemainingOf(u), 1, StrandedOf(u, st.stranded), OwedBy(u, st.stranded));
    assert AcctOf(st.accounts, u).locked == Sum(st.intents, OwedBy(u, st.stranded));
    if id :| id in st.intents && st.intents[id].user == u && At(st.stranded, id) != 0 {
      SumCovers(st.intents, StrandedOf(u, st.stranded), id);
    } else {
      SumZero(st.intents, StrandedOf(u, st.stranded));
    }
  }

  /** Finalizing strands nothing exactly when the shares of the fee round to nothing. */
  lemma FinalizeStrands(fee: nat, retrieval: Addr, foundation: Addr)
    ensures FinalBurn(SplitOf(fee), retrieval, foundation) == 0 <==> !Splits(fee)
  {
    SplitIsThirds(fee, retrieval, foundation);
    QuotientZero(WrapMul(fee, SHARE_BPS), 10000);
  }

  /** The step distributes the fee of one of the owner's deals, and the fee splits. */
  predicate StrandsNow(st: State, op: Op, u: Addr) {
    op.OpFinalize? && op.id in st.intents && st.intents[op.id].user == u && st.intents[op.id].deferred && Splits(st.intents[op.id].locked)
  }

  predicate StrandsSometime(st: State, ops: seq<Op>, u: Addr)
    decreases |ops|
  {
    ops != [] && (StrandsNow(st, ops[0], u) || StrandsSometime(Step(st, ops[0]), ops[1..], u))
  }

  /** A deal stays, with its owner. */
  predicate KeepsDeal(st: State, end: State, id: Id) {
    id in st.intents ==> id in end.intents && end.intents[id].user == st.intents[id].user
  }

  lemma SpendsKeepDeal(st: State, op: Op, id: Id)
    requires op.OpSpendFinite? || op.OpSpendPermanent?
    ensures KeepsDeal(st, Step(st, op), id)
  {
  }

  lemma BurnKeepsDeal(st: State, j: Id, now: int, id: Id)
    requires j in st.intents
    ensures KeepsDeal(st, Burn(st, j).0, id) && KeepsDeal(st, Refund(st, j), id) && KeepsDeal(st, CloseFund(st, j, now).0, id)
  {
  }

  lemma TerminateKeepsDeal(st: State, j: Id, now: int, id: Id)
    ensures KeepsDeal(st, Terminate(st, j, now).0, id)
  {
    if j in st.intents { BurnKeepsDeal(Marked(st, j, Terminating(st.intents[j], now)), j, now, id); }
  }

  lemma SettleKeepsDeal(st: State, j: Id, now: int, id: Id)
    ensures KeepsDeal(st, Settle(st, j, now), id)
  {
    if j in st.intents { BurnKeepsDeal(Marked(st, j, Settling(st.intents[j], now)), j, now, id); }
  }

  lemma EndsKeepDeal(st: State, op: Op, id: Id)
    requires op.OpCloseFund? || op.OpTerminate? || op.OpSettle?
    ensures KeepsDeal(st, Step(st, op), id)
  {
    match op
    case OpCloseFund(j, now) => if j in st.intents { BurnKeepsDeal(st, j, now, id); }
    case OpTerminate(j, now) => TerminateKeepsDeal(st, j, now, id);
    case OpSettle(j, now) => SettleKeepsDeal(st, j, now, id);
  }

  lemma AdditionsKeepDeal(st: State, op: Op, id: Id)
    requires op.OpOpen? || op.OpTopUp? || op.OpReplayTopUp? || op.OpRenew? || op.OpAutoRenew?
    ensures KeepsDeal(st, Step(st, op), id)
  {
  }

  /** Only a distribution strands anything. */
  predicate Distributes(st: State, op: Op) {
    op.OpFinalize? && op.id in st.intents && st.intents[op.id].deferred && st.intents[op.id].status != Finalized
  }

  lemma EndsStrandNothing(st: State, id: Id, now: int)
    ensures CloseFund(st, id, now).0.stranded == st.stranded
    ensures id in st.intents ==> Burn(st, id).0.stranded == st.stranded && Refund(st, id).stranded == st.stranded
  {
  }

  lemma AdditionsStrandNothing(st: State, op: Op)
    requires op.OpOpen? || op.OpTopUp? || op.OpReplayTopUp? || op.OpRenew? || op.OpAutoRenew? || op.OpSpendFinite? || op.OpSpendPermanent?
    ensures Step(st, op).stranded == st.stranded
  {
  }

  lemma StrandedStays(st: State, op: Op)
    ensures Step(st, op).stranded
            == if Distributes(st, op)
               then st.stranded[op.id := FinalBurn(SplitOf(st.intents[op.id].locked), op.retrieval, op.foundation)]
               else st.stranded
  {
    match op
    case OpFinalize(_, _, _, _) =>
    case OpCloseFund(id, now) => EndsStrandNothing(st, id, now);
    case OpTerminate(id, now) => if id in st.intents { EndsStrandNothing(Marked(st, id, Terminating(st.intents[id], now)), id, now); }
    case OpSettle(id, now) => if id in st.intents { EndsStrandNothing(Marked(st, id, Settling(st.intents[id], now)), id, now); }
    case _ => AdditionsStrandNothing(st, op);
  }

  lemma StepKeepsDeal(st: State, op: Op, id: Id)
    ensures KeepsDeal(st, Step(st, op), id)
  {
    if op.OpFinalize? {
    } else if op.OpOpen? || op.OpTopUp? || op.OpReplayTopUp? || op.OpRenew? || op.OpAutoRenew? {
      AdditionsKeepDeal(st, op, id);
    } else {
      if op.OpSpendFinite? || op.OpSpendPermanent? { SpendsKeepDeal(st, op, id); } else { EndsKeepDeal(st, op, id); }
    }
  }

  /** Whatever a step is, if it strands as `StrandedStays` says and keeps deals and owners. */
  lemma StrandsLike(st: State, end: State, op: Op, u: Addr)
    requires Inv(st) && forall id :: KeepsDeal(st, end, id)
    requires end.stranded == if Distributes(st, op)
                             then st.stranded[op.id := FinalBurn(SplitOf(st.intents[op.id].locked), op.retrieval, op.foundation)]
                             else st.stranded
    ensures AnyStranded(end, u) <==> AnyStranded(st, u) || StrandsNow(st, op, u)
  {
    if op.id in st.intents { assert GoodIntent(st.intents[op.id]) && KeepsDeal(st, end, op.id); }
    if Distributes(st, op) { FinalizeStrands(st.intents[op.id].locked, op.retrieval, op.foundation); }
    if id :| id in end.intents && end.intents[id].user == u && At(end.stranded, id) != 0 { assert KeepsDeal(st, end, id); }
    if id :| id in st.intents && st.intents[id].user == u && At(st.stranded, id) != 0 { assert KeepsDeal(st, end, id); }
  }

  lemma StepStrands(st: State, op: Op, u: Addr)
    requires Inv(st)
    ensures AnyStranded(Step(st, op), u) <==> AnyStranded(st, u) || StrandsNow(st, op, u)
  {
    StrandedStays(st, op);
    forall id ensures KeepsDeal(st, Step(st, op), id) { StepKeepsDeal(st, op, id); }
    StrandsLike(st, Step(st, op), op, u);
  }

  lemma {:induction false} RunStrands(st: State, ops: seq<Op>, u: Addr)
    requires Inv(st) && RunFits(st, ops)
    ensures AnyStranded(Run(st, ops), u) <==> AnyStranded(st, u) || StrandsSometime(st, ops, u)
    decreases |ops|
  {
    if ops != [] {
      StepStrands(st, ops[0], u);
      StepKeepsInv(st, ops[0]);
      RunStrands(Step(st, ops[0]), ops[1..], u);
    }
  }

  /** Over every safe run that starts without deals, locked storage equals the sum of remaining escrow if
      and only if no deal of the owner was finalized with a fee that splits. */
  lemma LockedIsRemainingExactly(st: State, ops: seq<Op>, u: Addr)
    requires Inv(st) && RunFits(st, ops) && st.intents == map[]
    ensures AcctOf(Run(st, ops).accounts, u).locked == Sum(Run(st, ops).intents, RemainingOf(u)) <==> !StrandsSometime(st, ops, u)
  {
    RunKeepsInv(st, ops);
    RunStrands(st, ops, u);
    LockedExceedsRemainingByStranded(Run(st, ops), u);
  }

  // ---------------------------------------------------------------- what the records say

  /** The escrow record of a permanent deal over-states its payments by the last one: rebuilding the
      total paid from the records would count that payment twice. */
  lemma RecordOverstatesLastPayment(st: State, id: Id, requested: nat, now: int)
    requires Inv(st) && id in st.intents
    requires var (end, amount) := SpendPermanent(st, id, requested, now); amount > 0
    ensures var (end, amount) := SpendPermanent(st, id, requested, now);
            && end.intents[id].paid == st.intents[id].paid + amount
            && end.deals[id].paid == SatAdd(end.intents[id].paid, amount)
  {
    AccountCoversIntent(st, id);
    FundHoldsRemaining(st, id, now);
  }

  // ---------------------------------------------------------------- renewing every due deal

  function AutoRenewOps(order: seq<Id>, price: Id -> nat, now: int): seq<Op> {
    seq(|order|, k requires 0 <= k < |order| => OpAutoRenew(order[k], price(order[k]), now))
  }

  lemma {:induction false} RunAppend(st: State, ops: seq<Op>, op: Op)
    ensures Run(st, ops + [op]) == Step(Run(st, ops), op)
    decreases |ops|
  {
    if ops == [] {
      assert Run(Step(st, op), []) == Step(st, op);
      assert ([op])[1..] == [] && [] + [op] == [op];
    } else {
      assert (ops + [op])[1..] == ops[1..] + [op] && (ops + [op])[0] == ops[0];
      RunAppend(Step(st, ops[0]), ops[1..], op);
    }
  }

  /** Renewing one deal leaves every other deal's record as it was. */
  lemma AutoRenewIsLocal(st: State, id: Id, price: nat, now: int)
    ensures var end := AutoRenew(st, id, price, now);
            end.intents.Keys == st.intents.Keys && forall j | j in st.intents && j != id :: end.intents[j] == st.intents[j]
  {
  }

  /** A pass over the deals that has visited `order` and has `todo` ahead of it. */
  ghost predicate InPass(start: State, cur: State, order: seq<Id>, todo: set<Id>, price: Id -> nat, now: int) {
    && Inv(cur) && now > GRACE
    && (forall id | id in start.intents :: start.intents[id].locked + price(id) <= MAX_U64)
    && todo <= cur.intents.Keys == start.intents.Keys
    && Stops(order) == start.intents.Keys - todo
    && (forall i, j | 0 <= i < j < |order| :: order[i] != order[j])
    && (forall id | id in todo :: cur.intents[id] == start.intents[id])
    && cur == Run(start, AutoRenewOps(order, price, now))
  }

  lemma PassTurn(start: State, cur: State, order: seq<Id>, todo: set<Id>, price: Id -> nat, now: int, id: Id)
    requires InPass(start, cur, order, todo, price, now) && id in todo
    ensures Words(cur, id) && cur.intents[id].locked + price(id) <= MAX_U64
    ensures InPass(start, AutoRenew(cur, id, price(id), now), order + [id], todo - {id}, price, now)
  {
    AutoRenewIsLocal(cur, id, price(id), now);
    AutoRenewKeepsInv(cur, id, price(id), now);
    InvBacks(cur, id);
    OrderGrows(start, order, price, now, id);
    StopsGrow(order, id);
  }

  lemma StopsGrow(order: seq<Id>, id: Id)
    requires id !in Stops(order) && forall i, j | 0 <= i < j < |order| :: order[i] != order[j]
    ensures Stops(order + [id]) == Stops(order) + {id}
    ensures forall i, j | 0 <= i < j < |order + [id]| :: (order + [id])[i] != (order + [id])[j]
  {
    assert forall k | 0 <= k < |order| :: order[k] in Stops(order);
  }

  lemma OrderGrows(start: State, order: seq<Id>, price: Id -> nat, now: int, id: Id)
    ensures Run(start, AutoRenewOps(order + [id], price, now))
            == AutoRenew(Run(start, AutoRenewOps(order, price, now)), id, price(id), now)
  {
    var ops := AutoRenewOps(order, price, now);
    assert AutoRenewOps(order + [id], price, now) == ops + [OpAutoRenew(id, price(id), now)];
    RunAppend(start, ops, OpAutoRenew(id, price(id), now));
  }
}
