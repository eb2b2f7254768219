/** The pool's running totals against a rebuild from the escrow records and permanent funds, over
    every state of the ledger, solvent or not. */
module StorageTotals {
  import opened Numbers
  import opened Sums
  import opened Escrow
  import opened StorageLedger

  function LockedAt(id: Id, e: Deal): int { e.locked }
  function OpenBalanceAt(id: Id, f: Fund): int { if f.closed then 0 else f.balance }

  /** The pool's running totals are what a rebuild from the records would give. */
  ghost predicate TotalsAgree(st: State) {
    && st.pool.totalLocked == Sum(st.deals, LockedAt)
    && st.pool.fundBalance == Sum(st.funds, OpenBalanceAt)
  }

  /** How a deal's term and status go together. */
  predicate Shaped(i: Intent) {
    && (Permanent(i) ==> i.expires == 0)
    && (i.deferred ==> i.status != Finalized && i.expires == 0)
    && (Permanent(i) && !i.deferred ==> i.status == Finalized)
  }

  /** An escrow record carries its deal's locked fee; a distributed deal has its records. */
  predicate RecordedAt(st: State, id: Id) {
    && (id in st.intents ==> var i := st.intents[id];
          && Shaped(i)
          && (id in st.deals ==> st.deals[id].locked == i.locked)
          && (!i.deferred ==> id in st.deals && (Permanent(i) ==> id in st.funds)))
    && (id in st.deals || id in st.funds ==> id in st.intents)
    && (id in st.funds && st.funds[id].closed ==> st.funds[id].balance == 0)
  }

  ghost predicate Recorded(st: State) { forall id :: RecordedAt(st, id) }

  ghost predicate Books(st: State) { Recorded(st) && TotalsAgree(st) }

  // ---------------------------------------------------------------- one deal at a time

  /** What the records of one deal contribute to the two totals. */
  function LockedRec(st: State, id: Id): nat { if id in st.deals then st.deals[id].locked else 0 }
  function OpenRec(st: State, id: Id): nat { if id in st.funds && !st.funds[id].closed then st.funds[id].balance else 0 }

  /** `a` and `b` differ under one key at most, and `b` has whatever `a` has. */
  ghost predicate SameElsewhere<V(!new)>(a: map<Id, V>, b: map<Id, V>, id: Id) { b == a || (id in b && b == a[id := b[id]]) }

  ghost predicate Touches(st: State, end: State, id: Id) {
    SameElsewhere(st.intents, end.intents, id) && SameElsewhere(st.deals, end.deals, id) && SameElsewhere(st.funds, end.funds, id)
  }

  lemma TouchKeepsRecorded(st: State, end: State, id: Id)
    requires Recorded(st) && Touches(st, end, id) && RecordedAt(end, id)
    ensures Recorded(end)
  {
    forall j ensures RecordedAt(end, j) {
      assert RecordedAt(st, j);
    }
  }

  /** The totals move exactly as the records of the deal do. */
  predicate Moves(st: State, end: State, id: Id) {
    && end.pool.totalLocked - st.pool.totalLocked == LockedRec(end, id) - LockedRec(st, id)
    && end.pool.fundBalance - st.pool.fundBalance == OpenRec(end, id) - OpenRec(st, id)
  }

  lemma TouchMovesTotals(st: State, end: State, id: Id)
    requires TotalsAgree(st) && Touches(st, end, id)
    ensures TotalsAgree(end) <==> Moves(st, end, id)
  {
    if id in end.deals { SumPut(st.deals, LockedAt, id, end.deals[id]); }
    if id in end.funds { SumPut(st.funds, OpenBalanceAt, id, end.funds[id]); }
  }

  lemma Touched(st: State, end: State, id: Id)
    requires Books(st) && Touches(st, end, id) && RecordedAt(end, id)
    ensures Recorded(end) && (TotalsAgree(end) <==> Moves(st, end, id))
  {
    TouchKeepsRecorded(st, end, id);
    TouchMovesTotals(st, end, id);
  }

  /** The fund total covers each open fund, so its clamp never binds for a stored one. */
  lemma OpenCovered(st: State, id: Id)
    requires TotalsAgree(st)
    ensures OpenRec(st, id) <= st.pool.fundBalance
  {
    if id in st.funds { SumCovers(st.funds, OpenBalanceAt, id); }
  }

  /** Under solvency too, it covers what remains of every finalized permanent deal. */
  lemma PoolCoversFund(st: State, id: Id)
    requires Inv(st) && Books(st) && id in st.intents && Permanent(st.intents[id]) && !st.intents[id].deferred
    ensures id in st.funds && id in st.deals
    ensures st.funds[id].balance == Remaining(st.intents[id]) == OpenRec(st, id) <= st.pool.fundBalance
  {
    assert RecordedAt(st, id);
    OpenCovered(st, id);
  }

  // ---------------------------------------------------------------- which steps keep the totals

  /** Side conditions of a step: the totals fit in a uint64, and the clock is past the first week of
      the epoch. */
  predicate TotalsSized(st: State, op: Op) {
    match op
    case OpFinalize(id, _, _, _) =>
      id in st.intents ==> st.pool.totalLocked + st.intents[id].locked <= MAX_U64
                           && st.pool.fundBalance + OpenRec(st, id) + st.intents[id].locked <= MAX_U64
    case OpTopUp(id, _, x, _) => GrowthFits(st, id, x)
    case OpReplayTopUp(id, _, x, _) => GrowthFits(st, id, x)
    case OpRenew(id, _, _, p, now) => now > GRACE && GrowthFits(st, id, p)
    case OpAutoRenew(id, p, now) => now > GRACE && GrowthFits(st, id, p)
    case _ => true
  }

  predicate GrowthFits(st: State, id: Id, x: nat) {
    && st.pool.totalLocked + x <= MAX_U64 && st.pool.fundBalance + x <= MAX_U64
    && (id in st.intents ==> st.intents[id].locked + x <= MAX_U64)
  }

  function OwnerLocked(st: State, id: Id): nat
    requires id in st.intents
  {
    AcctOf(st.accounts, st.intents[id].user).locked
  }

  /** What a refund or a burn takes. */
  function Reach(st: State, id: Id): nat
    requires id in st.intents
  {
    Min(Remaining(st.intents[id]), OwnerLocked(st, id))
  }

  /** A refund or a burn is on record, or takes nothing. */
  predicate GivesBackCleanly(st: State, id: Id)
    requires id in st.intents
  {
    id in st.deals || Reach(st, id) == 0
  }

  /** Closing a stored fund must be able to burn all of it; closing one that is not stored must take
      nothing out of a total that never included it. */
  predicate ClosesCleanly(st: State, id: Id)
    requires id in st.intents
  {
    if id in st.funds then st.funds[id].closed || st.funds[id].balance <= OwnerLocked(st, id)
    else Reach(st, id) == 0 || st.pool.fundBalance == 0
  }

  /** What a payment of `x` takes out of a permanent fund. */
  function FundDraw(st: State, id: Id, x: nat, now: int): nat
    requires id in st.intents
  {
    var f := FundOf(st.funds, id, st.intents[id], now);
    if f.closed then 0 else Min(Min(x, f.balance), OwnerLocked(st, id))
  }

  /** What a step needs to keep the totals right. Without an escrow record, it must not create one for
      a fee that was never charged; it must not move the fund total by anything but what the stored
      fund moves; and a distribution must not charge what is charged already. */
  predicate Clean(st: State, op: Op) {
    op.id in st.intents ==>
      var i, charged, stored := st.intents[op.id], op.id in st.deals, op.id in st.funds;
      match op
      case OpFinalize(id, _, _, _) => i.deferred ==> (charged ==> !Splits(i.locked)) && (Permanent(i) ==> OpenRec(st, id) == 0)
      case OpSpendFinite(_, x, _) => x == 0 || Permanent(i) || charged || i.locked == 0
      case OpSpendPermanent(id, x, now) =>
        || !Permanent(i) || FundDraw(st, id, x, now) == 0
        || ((charged || i.locked == 0) && (stored || (st.pool.fundBalance == 0 && FundDraw(st, id, x, now) == Remaining(i))))
      case OpReplayTopUp(id, u, x, _) => !CanReplayTopUp(st, id, u, x) || ((charged || i.locked == 0) && (stored || Remaining(i) == 0))
      case OpCloseFund(id, _) => !Permanent(i) || ClosesCleanly(st, id)
      case OpTerminate(id, _) => i.status == Deleted || (if Permanent(i) then ClosesCleanly(st, id) else GivesBackCleanly(st, id))
      case OpSettle(id, now) => !CanSettle(i, now) || GivesBackCleanly(st, id)
      case _ => true
  }

  lemma OpenBooks(st: State, id: Id, i: Intent)
    requires Books(st)
    ensures Books(Open(st, id, i))
  {
    var end := Open(st, id, i);
    assert RecordedAt(st, id);
    if end != st { Touched(st, end, id); }
  }

  /** Distributing a fee charges the whole miner part and counts the whole fund: right exactly when
      neither was counted before. */
  lemma DistributeBooks(st: State, op: Op)
    requires Books(st) && TotalsSized(st, op) && op.OpFinalize? && op.id in st.intents && st.intents[op.id].deferred
    ensures var end := DistributeFee(st, op.id, op.retrieval, op.foundation, op.now);
            Recorded(end) && (TotalsAgree(end) <==> Clean(st, op))
  {
    var i, end := st.intents[op.id], DistributeFee(st, op.id, op.retrieval, op.foundation, op.now);
    assert RecordedAt(st, op.id);
    SplitIsThirds(i.locked, op.retrieval, op.foundation);
    QuotientZero(WrapMul(i.locked, SHARE_BPS), 10000);
    Touched(st, end, op.id);
  }

  lemma FinalizeBooks(st: State, op: Op)
    requires Books(st) && TotalsSized(st, op) && op.OpFinalize?
    ensures Recorded(Step(st, op)) && (TotalsAgree(Step(st, op)) <==> Clean(st, op))
  {
    assert RecordedAt(st, op.id);
    if op.id in st.intents && st.intents[op.id].status != Finalized {
      if st.intents[op.id].deferred { DistributeBooks(st, op); } else { Touched(st, Step(st, op), op.id); }
    }
  }

  lemma SpendFiniteBooks(st: State, op: Op)
    requires Books(st) && op.OpSpendFinite?
    ensures Recorded(Step(st, op)) && (TotalsAgree(Step(st, op)) <==> Clean(st, op))
  {
    assert RecordedAt(st, op.id);
    if op.id in st.intents && op.requested > 0 && !Permanent(st.intents[op.id]) { Touched(st, Step(st, op), op.id); }
  }

  lemma SpendPermanentBooks(st: State, op: Op)
    requires Books(st) && op.OpSpendPermanent?
    ensures Recorded(Step(st, op)) && (TotalsAgree(Step(st, op)) <==> Clean(st, op))
  {
    var (end, amount) := SpendPermanent(st, op.id, op.requested, op.now);
    assert RecordedAt(st, op.id);
    if amount > 0 {
      PaidFromFund(st, op.id, op.requested, op.now);
      OpenCovered(st, op.id);
      Touched(st, end, op.id);
    }
  }

  /** What a payment does to the records of its deal. */
  lemma PaidFromFund(st: State, id: Id, requested: nat, now: int)
    requires Books(st) && SpendPermanent(st, id, requested, now).1 > 0
    ensures var (end, amount) := SpendPermanent(st, id, requested, now);
            && id in st.intents && Permanent(st.intents[id])
            && Touches(st, end, id) && RecordedAt(end, id)
            && LockedRec(end, id) == st.intents[id].locked && end.pool.totalLocked == st.pool.totalLocked
            && OpenRec(end, id) == (if id in st.funds then OpenRec(st, id) else Remaining(st.intents[id])) - amount
            && end.pool.fundBalance == Sub(st.pool.fundBalance, amount)
  {
    assert RecordedAt(st, id);
  }

  lemma ToppedUpBooks(st: State, id: Id, user: Addr, amount: nat, now: int)
    requires Books(st) && CanReplayTopUp(st, id, user, amount) && GrowthFits(st, id, amount)
    ensures var i, end := st.intents[id], ToppedUp(st, id, user, amount, now);
            && Recorded(end)
            && (TotalsAgree(end) <==> (id in st.deals || i.locked == 0) && (id in st.funds || Remaining(i) == 0))
  {
    assert RecordedAt(st, id);
    OpenCovered(st, id);
    Touched(st, ToppedUp(st, id, user, amount, now), id);
  }

  lemma RenewBooks(st: State, op: Op)
    requires Books(st) && TotalsSized(st, op) && (op.OpRenew? || op.OpAutoRenew?)
    ensures Books(Step(st, op))
  {
    assert RecordedAt(st, op.id);
    if Step(st, op) != st { Touched(st, Step(st, op), op.id); }
  }

  /** Marking a deal before its money moves leaves records and totals alone. */
  lemma MarkBooks(st: State, id: Id, n: Intent)
    requires Books(st) && id in st.intents && Shaped(n) && SameMoney(st.intents[id], n)
    ensures Books(Marked(st, id, n))
  {
    assert RecordedAt(st, id);
    Touched(st, Marked(st, id, n), id);
  }

  /** Burning creates the escrow record without charging the total: right exactly when there is a
      record, or nothing to burn, or nothing locked to burn it from. */
  lemma EarlyBurnSkewsTotals(st: State, id: Id)
    requires Books(st) && id in st.intents
    ensures Recorded(Burn(st, id).0)
    ensures TotalsAgree(Burn(st, id).0) <==> GivesBackCleanly(st, id)
  {
    assert RecordedAt(st, id);
    if Reach(st, id) > 0 { Touched(st, Burn(st, id).0, id); }
  }

  /** So does refunding, as happens to every upload that misses its deadline. */
  lemma EarlyRefundSkewsTotals(st: State, id: Id)
    requires Books(st) && id in st.intents
    ensures Recorded(Refund(st, id))
    ensures TotalsAgree(Refund(st, id)) <==> GivesBackCleanly(st, id)
  {
    assert RecordedAt(st, id);
    if Reach(st, id) > 0 { Touched(st, Refund(st, id), id); }
  }

  /** Closing a fund lowers the fund total by what it burns: right exactly when that is all of a stored
      fund, or nothing of one that is not stored. */
  lemma EarlyCloseSkewsTotals(st: State, id: Id, now: int)
    requires Books(st) && id in st.intents && Permanent(st.intents[id])
    ensures Recorded(CloseFund(st, id, now).0)
    ensures TotalsAgree(CloseFund(st, id, now).0) <==> ClosesCleanly(st, id)
  {
    assert RecordedAt(st, id);
    OpenCovered(st, id);
    if !FundOf(st.funds, id, st.intents[id], now).closed { Touched(st, CloseFund(st, id, now).0, id); }
  }

  lemma SettlingIsShaped(i: Intent, now: int)
    requires Shaped(i)
    ensures Shaped(Settling(i, now)) && (CanSettle(i, now) && Permanent(i) ==> i.deferred)
  {
  }

  lemma TerminatingIsShaped(i: Intent, now: int)
    requires Shaped(i)
    ensures Shaped(Terminating(i, now)) && SameMoney(i, Terminating(i, now))
  {
  }

  /** A mark leaves what the totals depend on as it was. */
  lemma MarkKeepsReach(st: State, id: Id, n: Intent)
    requires id in st.intents && SameMoney(st.intents[id], n)
    ensures var st1 := Marked(st, id, n);
            && Reach(st1, id) == Reach(st, id) && GivesBackCleanly(st1, id) == GivesBackCleanly(st, id)
            && ClosesCleanly(st1, id) == ClosesCleanly(st, id)
  {
    SameMoneyRemains(st.intents[id], n);
  }

  /** Settling keeps the totals right exactly when the deal is not due, or its refund is on record or
      takes nothing. */
  lemma EarlySettleSkewsTotals(st: State, id: Id, now: int)
    requires Books(st) && id in st.intents
    ensures Recorded(Settle(st, id, now))
    ensures TotalsAgree(Settle(st, id, now)) <==> !CanSettle(st.intents[id], now) || GivesBackCleanly(st, id)
  {
    var n := Settling(st.intents[id], now);
    assert RecordedAt(st, id);
    SettlingMovesNoMoney(st.intents[id], now);
    SettlingIsShaped(st.intents[id], now);
    MarkKeepsReach(st, id, n);
    MarkBooks(st, id, n);
    if CanSettle(st.intents[id], now) { EarlyRefundSkewsTotals(Marked(st, id, n), id); }
  }

  /** Terminating keeps them right exactly when its burn or its closing does. */
  lemma EarlyTerminateSkewsTotals(st: State, id: Id, now: int)
    requires Books(st) && id in st.intents && st.intents[id].status != Deleted
    ensures Recorded(Terminate(st, id, now).0)
    ensures TotalsAgree(Terminate(st, id, now).0)
            <==> if Permanent(st.intents[id]) then ClosesCleanly(st, id) else GivesBackCleanly(st, id)
  {
    var n := Terminating(st.intents[id], now);
    assert RecordedAt(st, id);
    TerminatingIsShaped(st.intents[id], now);
    SameMoneyRemains(st.intents[id], n);
    MarkKeepsReach(st, id, n);
    MarkBooks(st, id, n);
    if Permanent(n) { EarlyCloseSkewsTotals(Marked(st, id, n), id, now); } else { EarlyBurnSkewsTotals(Marked(st, id, n), id); }
  }

  lemma EndBooks(st: State, op: Op)
    requires Books(st) && (op.OpSettle? || op.OpTerminate? || op.OpCloseFund?)
    ensures Recorded(Step(st, op)) && (TotalsAgree(Step(st, op)) <==> Clean(st, op))
  {
    assert RecordedAt(st, op.id);
    if op.id in st.intents {
      match op
      case OpCloseFund(id, now) => if Permanent(st.intents[id]) { EarlyCloseSkewsTotals(st, id, now); }
      case OpTerminate(id, now) => if st.intents[id].status != Deleted { EarlyTerminateSkewsTotals(st, id, now); }
      case OpSettle(id, now) => EarlySettleSkewsTotals(st, id, now);
    }
  }

  lemma TopUpBooks(st: State, op: Op)
    requires Books(st) && TotalsSized(st, op) && (op.OpTopUp? || op.OpReplayTopUp?)
    ensures Recorded(Step(st, op)) && (TotalsAgree(Step(st, op)) <==> Clean(st, op))
  {
    assert RecordedAt(st, op.id);
    if CanReplayTopUp(st, op.id, op.user, op.amount) { ToppedUpBooks(st, op.id, op.user, op.amount, op.now); }
  }

  /** A step keeps the totals equal to a rebuild if and only if it is clean, in every state. */
  lemma StepKeepsTotals(st: State, op: Op)
    requires Books(st) && TotalsSized(st, op)
    ensures Recorded(Step(st, op))
    ensures TotalsAgree(Step(st, op)) <==> Clean(st, op)
  {
    match op
    case OpOpen(id, i) => OpenBooks(st, id, i);
    case OpFinalize(_, _, _, _) => FinalizeBooks(st, op);
    case OpSpendFinite(_, _, _) => SpendFiniteBooks(st, op);
    case OpSpendPermanent(_, _, _) => SpendPermanentBooks(st, op);
    case OpTopUp(_, _, _, _) => TopUpBooks(st, op);
    case OpReplayTopUp(_, _, _, _) => TopUpBooks(st, op);
    case OpRenew(_, _, _, _, _) => RenewBooks(st, op);
    case OpAutoRenew(_, _, _) => RenewBooks(st, op);
    case _ => EndBooks(st, op);
  }

  // ---------------------------------------------------------------- runs

  predicate RunTotalsSized(st: State, ops: seq<Op>)
    decreases |ops|
  {
    ops == [] || (TotalsSized(st, ops[0]) && RunTotalsSized(Step(st, ops[0]), ops[1..]))
  }

  predicate RunClean(st: State, ops: seq<Op>)
    decreases |ops|
  {
    ops == [] || (Clean(st, ops[0]) && RunClean(Step(st, ops[0]), ops[1..]))
  }

  ghost predicate TotalsThroughout(st: State, ops: seq<Op>)
    decreases |ops|
  {
    TotalsAgree(st) && (ops == [] || TotalsThroughout(Step(st, ops[0]), ops[1..]))
  }

  /** The pool's running totals equal what a rebuild computes from scratch, at every point of a run,
      if and only if every step of the run is clean. */
  lemma {:induction false} RunKeepsTotals(st: State, ops: seq<Op>)
    requires Books(st) && RunTotalsSized(st, ops)
    ensures TotalsThroughout(st, ops) <==> RunClean(st, ops)
    ensures RunClean(st, ops) ==> Books(Run(st, ops))
    decreases |ops|
  {
    if ops != [] {
      StepKeepsTotals(st, ops[0]);
      if Clean(st, ops[0]) { RunKeepsTotals(Step(st, ops[0]), ops[1..]); }
    }
  }

  /** Every step on a deal whose fee was distributed is clean as long as its owner's account backs it. */
  lemma DistributedIsClean(st: State, op: Op)
    requires Recorded(st) && Backed(st, op.id) && (op.id in st.intents ==> !st.intents[op.id].deferred)
    ensures Clean(st, op)
  {
    assert RecordedAt(st, op.id);
  }

  /** Without that backing, closing a distributed permanent deal leaves the fund total too high. */
  lemma OverdrawnCloseSkewsTotals(st: State, id: Id, now: int)
    requires Books(st) && id in st.intents && Permanent(st.intents[id]) && id in st.funds
    requires !st.funds[id].closed && OwnerLocked(st, id) < st.funds[id].balance
    ensures var end := CloseFund(st, id, now).0;
            end.pool.fundBalance - Sum(end.funds, OpenBalanceAt) == st.funds[id].balance - OwnerLocked(st, id)
  {
    OpenCovered(st, id);
    var end := CloseFund(st, id, now).0;
    SumPut(st.funds, OpenBalanceAt, id, end.funds[id]);
  }

  // ---------------------------------------------------------------- a run that ends with a skewed fund total

  /** A permanent upload of one owner. */
  function Upload(u: Addr, fee: nat): Intent {
    Intent(u, fee, 0, 0, 0, true, 0, Uploading, false, false, false, false, 1, 1, 0, 10)
  }

  function Start(u: Addr): State { State(map[u := Acct(11000, 0)], map[], map[], map[], Pool(0, 0, 0, 0, 0), map[]) }

  /** Terminating an upload of 10000 while the fund total is zero. */
  lemma TerminatedUpload(u: Addr, a: Id)
    ensures var st := Step(Step(Start(u), OpOpen(a, Upload(u, 10000))), OpTerminate(a, 2));
            && st.accounts == map[u := Acct(1000, 0)] && st.deals == map[]
            && st.intents.Keys == {a} && st.funds.Keys == {a} && st.funds[a].closed && st.funds[a].balance == 0
            && st.intents[a] == Upload(u, 10000).(burned := 10000, updated := 2)
            && st.pool.totalLocked == 0 && st.pool.fundBalance == 0
  {
    var s1 := Step(Start(u), OpOpen(a, Upload(u, 10000)));
    assert s1.intents == map[a := Upload(u, 10000)] && s1.accounts == map[u := Acct(1000, 10000)];
  }

  /** Opening and finalizing an upload of 1000 beside it: its fund holds 880 and 910 stay locked. */
  lemma SecondUpload(st: State, u: Addr, a: Id, b: Id, r: Addr, f: Addr)
    requires a != b && st.intents.Keys == {a} && st.funds.Keys == {a} && st.accounts == map[u := Acct(1000, 0)] && b !in st.deals
    requires st.pool.totalLocked == 0 && st.pool.fundBalance == 0 && r !in {"", u} && f !in {"", u}
    ensures var end := Step(Step(st, OpOpen(b, Upload(u, 1000))), OpFinalize(b, r, f, 3));
            && AcctOf(end.accounts, u) == Acct(0, 910) && end.intents.Keys == {a, b} && end.intents[a] == st.intents[a]
            && end.funds.Keys == {a, b} && end.funds[a] == st.funds[a] && end.funds[b].balance == 880 && !end.funds[b].closed
            && end.intents[b].user == u && Permanent(end.intents[b]) && end.pool.fundBalance == 880
  {
    OpenedUpload(st, u, b);
    FinalizedUpload(Step(st, OpOpen(b, Upload(u, 1000))), u, b, r, f);
  }

  lemma OpenedUpload(st: State, u: Addr, b: Id)
    requires b !in st.intents && st.accounts == map[u := Acct(1000, 0)]
    ensures var end := Step(st, OpOpen(b, Upload(u, 1000)));
            && end.intents == st.intents[b := Upload(u, 1000)] && end.accounts == map[u := Acct(0, 1000)]
            && end.funds == st.funds && end.deals == st.deals && end.pool == st.pool
  {
  }

  lemma FinalizedUpload(st: State, u: Addr, b: Id, r: Addr, f: Addr)
    requires b in st.intents && st.intents[b] == Upload(u, 1000) && b !in st.deals && b !in st.funds
    requires st.accounts == map[u := Acct(0, 1000)] && st.pool.fundBalance == 0 && r !in {"", u} && f !in {"", u}
    ensures var end := Step(st, OpFinalize(b, r, f, 3));
            && AcctOf(end.accounts, u) == Acct(0, 910)
            && b in end.funds && end.funds == st.funds[b := end.funds[b]] && end.funds[b].balance == 880 && !end.funds[b].closed
            && b in end.intents && end.intents == st.intents[b := end.intents[b]]
            && end.intents[b].user == u && Permanent(end.intents[b]) && end.pool.fundBalance == 880
  {
    assert WrapMul(1000, SHARE_BPS) == 300000;
    var n := FinalizedIntent(Upload(u, 1000), r, f, 3);
    assert n.locked == 910 && n.burned == 30;
    SolventRemaining(n);
  }

  /** Finalizing the terminated upload takes 900 of them; closing the other fund can then burn 10 of
      its 880, and the fund total stays at 870 with no open fund left. */
  lemma LateFinalizeStarvesFund(st: State, u: Addr, a: Id, b: Id, r: Addr, f: Addr)
    requires a != b && st.intents.Keys == {a, b} && st.funds.Keys == {a, b} && AcctOf(st.accounts, u) == Acct(0, 910)
    requires st.intents[a] == Upload(u, 10000).(burned := 10000, updated := 2) && st.funds[a].closed && st.funds[a].balance == 0
    requires st.intents[b].user == u && Permanent(st.intents[b]) && st.funds[b].balance == 880 && !st.funds[b].closed
    requires st.pool.fundBalance == 880 && r !in {"", u} && f !in {"", u}
    ensures var end := Step(Step(st, OpFinalize(a, r, f, 4)), OpCloseFund(b, 5));
            end.pool.fundBalance == 870 && end.funds.Keys == {a, b} && end.funds[a].closed && end.funds[b].closed
  {
    assert WrapMul(10000, SHARE_BPS) == 3000000;
    var s1 := Step(st, OpFinalize(a, r, f, 4));
    assert AcctOf(s1.accounts, u) == Acct(0, 10) && s1.pool.fundBalance == 880;
  }

  /** The whole run ends with a fund total of 870 that a rebuild would make zero. */
  lemma StarvedFundRun(u: Addr, a: Id, b: Id, r: Addr, f: Addr)
    requires a != b && r !in {"", u} && f !in {"", u}
    ensures var s2 := Step(Step(Start(u), OpOpen(a, Upload(u, 10000))), OpTerminate(a, 2));
            var s4 := Step(Step(s2, OpOpen(b, Upload(u, 1000))), OpFinalize(b, r, f, 3));
            var s6 := Step(Step(s4, OpFinalize(a, r, f, 4)), OpCloseFund(b, 5));
            s6.pool.fundBalance == 870 && Sum(s6.funds, OpenBalanceAt) == 0
  {
    var s2 := Step(Step(Start(u), OpOpen(a, Upload(u, 10000))), OpTerminate(a, 2));
    TerminatedUpload(u, a);
    StarvedFundTail(s2, u, a, b, r, f);
  }

  lemma StarvedFundTail(s2: State, u: Addr, a: Id, b: Id, r: Addr, f: Addr)
    requires a != b && r !in {"", u} && f !in {"", u}
    requires s2.accounts == map[u := Acct(1000, 0)] && s2.deals == map[] && s2.pool.totalLocked == 0 && s2.pool.fundBalance == 0
    requires s2.intents.Keys == {a} && s2.funds.Keys == {a} && s2.funds[a].closed && s2.funds[a].balance == 0
    requires s2.intents[a] == Upload(u, 10000).(burned := 10000, updated := 2)
    ensures var s4 := Step(Step(s2, OpOpen(b, Upload(u, 1000))), OpFinalize(b, r, f, 3));
            var s6 := Step(Step(s4, OpFinalize(a, r, f, 4)), OpCloseFund(b, 5));
            s6.pool.fundBalance == 870 && Sum(s6.funds, OpenBalanceAt) == 0
  {
    var s4 := Step(Step(s2, OpOpen(b, Upload(u, 1000))), OpFinalize(b, r, f, 3));
    SecondUpload(s2, u, a, b, r, f);
    LateFinalizeStarvesFund(s4, u, a, b, r, f);
    NoOpenFunds(Step(Step(s4, OpFinalize(a, r, f, 4)), OpCloseFund(b, 5)).funds, a, b);
  }

  lemma NoOpenFunds(funds: map<Id, Fund>, a: Id, b: Id)
    requires funds.Keys == {a, b} && funds[a].closed && funds[b].closed
    ensures Sum(funds, OpenBalanceAt) == 0
  {
    SumZero(funds, OpenBalanceAt);
  }
}
