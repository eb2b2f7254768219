/** Conservation of tokens by the storage ledger: balances, locked storage, and what the pool counts
    as paid out and burned, over every state and run, solvent or not. */
module StorageTokens {
  import opened Numbers
  import opened Sums
  import opened Escrow
  import opened StorageLedger

  function HeldAt(a: Addr, acct: Acct): int { acct.balance + acct.locked }

  ghost function Tokens(st: State): int { Sum(st.accounts, HeldAt) + st.pool.totalPaid + st.pool.totalBurned }

  lemma HeldPut(accounts: map<Addr, Acct>, u: Addr, acct: Acct)
    ensures Sum(accounts[u := acct], HeldAt) == Sum(accounts, HeldAt) - HeldAt(u, AcctOf(accounts, u)) + HeldAt(u, acct)
  {
    SumPut(accounts, HeldAt, u, acct);
  }

  /** What an account has locked is part of the supply, so moving it to a total cannot saturate. */
  lemma TokensCover(st: State, u: Addr)
    ensures AcctOf(st.accounts, u).locked + st.pool.totalPaid + st.pool.totalBurned <= Tokens(st)
  {
    if u in st.accounts { SumCovers(st.accounts, HeldAt, u); } else { SumNonNegative(st.accounts, HeldAt); }
  }

  // ---------------------------------------------------------------- finalizing

  /** A share whose recipient owns the deal is credited to a record that is then overwritten. */
  function LostShare(owner: Addr, recipient: Addr, share: nat): nat { if recipient == owner && owner != "" then share else 0 }

  function LostBy(i: Intent, retrieval: Addr, foundation: Addr): nat {
    LostShare(i.user, retrieval, SplitOf(i.locked).retrieval) + LostShare(i.user, foundation, SplitOf(i.locked).foundation)
  }

  /** What the shares add to the supply when the owner has less locked than they amount to. */
  function MintedBy(st: State, i: Intent): nat { Sub(i.locked - SplitOf(i.locked).miner, AcctOf(st.accounts, i.user).locked) }

  lemma PayingHeld(accounts: map<Addr, Acct>, a: Addr, x: nat, u: Addr)
    ensures Sum(Paying(accounts, a, x), HeldAt) == Sum(accounts, HeldAt) + (if a == "" then 0 else x)
    ensures HeldAt(u, AcctOf(Paying(accounts, a, x), u)) == HeldAt(u, AcctOf(accounts, u)) + (if a == "" || a != u then 0 else x)
  {
    if x > 0 && a != "" { HeldPut(accounts, a, AcctOf(accounts, a).(balance := AcctOf(accounts, a).balance + x)); }
  }

  /** What the accounts hold after a distribution. */
  lemma DistributionHeld(st: State, id: Id, retrieval: Addr, foundation: Addr, now: int)
    requires id in st.intents
    ensures var i := st.intents[id];
            var s := SplitOf(i.locked);
            Sum(DistributeFee(st, id, retrieval, foundation, now).accounts, HeldAt)
            == Sum(st.accounts, HeldAt) - (i.locked - s.miner) + MintedBy(st, i)
               + (if retrieval == "" then 0 else s.retrieval) + (if foundation == "" then 0 else s.foundation)
               - LostBy(i, retrieval, foundation)
  {
    var i := st.intents[id];
    var s, u := SplitOf(i.locked), i.user;
    var one := Paying(st.accounts, retrieval, s.retrieval);
    var paid := Paying(one, foundation, s.foundation);
    PayingHeld(st.accounts, retrieval, s.retrieval, u);
    PayingHeld(one, foundation, s.foundation, u);
    HeldPut(paid, u, DistributeFee(st, id, retrieval, foundation, now).accounts[u]);
  }

  lemma BurnIsTheRest(total: nat, retrieval: Addr, foundation: Addr)
    ensures var s := SplitOf(total);
            FinalBurn(s, retrieval, foundation) + (if retrieval == "" then 0 else s.retrieval) + (if foundation == "" then 0 else s.foundation)
            == total - s.miner
  {
  }

  /** A distribution changes the supply by exactly what the clamp mints and the owner's own shares
      lose; so it conserves tokens if and only if the two are equal. */
  lemma DistributionConservesExactly(st: State, id: Id, retrieval: Addr, foundation: Addr, now: int)
    requires id in st.intents && st.pool.totalBurned + st.intents[id].locked <= MAX_U64
    ensures var i, end := st.intents[id], DistributeFee(st, id, retrieval, foundation, now);
            && Tokens(end) == Tokens(st) + MintedBy(st, i) - LostBy(i, retrieval, foundation)
            && (Tokens(end) == Tokens(st) <==> MintedBy(st, i) == LostBy(i, retrieval, foundation))
  {
    var i := st.intents[id];
    DistributionHeld(st, id, retrieval, foundation, now);
    BurnIsTheRest(i.locked, retrieval, foundation);
    SplitIsThirds(i.locked, retrieval, foundation);
  }

  // ---------------------------------------------------------------- the other steps

  /** Moving `x` of an account's locked storage to a total keeps the sum. */
  lemma WithdrawalHeld(st: State, u: Addr, x: nat)
    requires x <= AcctOf(st.accounts, u).locked && Tokens(st) <= MAX_U64
    ensures var acct := AcctOf(st.accounts, u);
            Sum(st.accounts[u := acct.(locked := acct.locked - x)], HeldAt) == Sum(st.accounts, HeldAt) - x
    ensures SatAdd(st.pool.totalPaid, x) == st.pool.totalPaid + x && SatAdd(st.pool.totalBurned, x) == st.pool.totalBurned + x
  {
    HeldPut(st.accounts, u, AcctOf(st.accounts, u).(locked := AcctOf(st.accounts, u).locked - x));
    TokensCover(st, u);
  }

  lemma SpendsConserve(st: State, op: Op)
    requires (op.OpSpendFinite? || op.OpSpendPermanent?) && Tokens(st) <= MAX_U64
    ensures Tokens(Step(st, op)) == Tokens(st)
  {
    if op.id in st.intents {
      var amount := if op.OpSpendFinite? then SpendFinite(st, op.id, op.requested, op.now).1
                    else SpendPermanent(st, op.id, op.requested, op.now).1;
      if amount > 0 { WithdrawalHeld(st, st.intents[op.id].user, amount); }
    }
  }

  lemma BurnConserves(st: State, id: Id)
    requires id in st.intents && Tokens(st) <= MAX_U64
    ensures Tokens(Burn(st, id).0) == Tokens(st) && Tokens(Refund(st, id)) == Tokens(st)
  {
    var u := st.intents[id].user;
    var x := Burn(st, id).1;
    if x > 0 {
      WithdrawalHeld(st, u, x);
      HeldPut(st.accounts, u, Acct(AcctOf(st.accounts, u).balance + x, AcctOf(st.accounts, u).locked - x));
    }
  }

  lemma CloseConserves(st: State, id: Id, now: int)
    requires Tokens(st) <= MAX_U64
    ensures Tokens(CloseFund(st, id, now).0) == Tokens(st)
  {
    if id in st.intents && Permanent(st.intents[id]) && !FundOf(st.funds, id, st.intents[id], now).closed {
      var x := CloseFund(st, id, now).1;
      WithdrawalHeld(st, st.intents[id].user, x);
    }
  }

  lemma TerminateConserves(st: State, id: Id, now: int)
    requires Tokens(st) <= MAX_U64
    ensures Tokens(Terminate(st, id, now).0) == Tokens(st)
  {
    if id in st.intents {
      var st1 := Marked(st, id, Terminating(st.intents[id], now));
      CloseConserves(st1, id, now);
      BurnConserves(st1, id);
    }
  }

  lemma SettleConserves(st: State, id: Id, now: int)
    requires Tokens(st) <= MAX_U64
    ensures Tokens(Settle(st, id, now)) == Tokens(st)
  {
    if id in st.intents { BurnConserves(Marked(st, id, Settling(st.intents[id], now)), id); }
  }

  lemma AdditionsConserve(st: State, op: Op)
    requires op.OpOpen? || op.OpTopUp? || op.OpReplayTopUp? || op.OpRenew? || op.OpAutoRenew?
    ensures Tokens(Step(st, op)) == Tokens(st)
  {
    var u := if op.OpOpen? then op.intent.user else if op.id in st.intents then st.intents[op.id].user else "";
    HeldPut(st.accounts, u, AcctOf(Step(st, op).accounts, u));
  }

  // ---------------------------------------------------------------- runs

  function LostAt(st: State, op: Op): nat {
    if Distributes(st, op) then LostBy(st.intents[op.id], op.retrieval, op.foundation) else 0
  }

  function MintedAt(st: State, op: Op): nat { if Distributes(st, op) then MintedBy(st, st.intents[op.id]) else 0 }

  /** The supply, and the burn a distribution adds to it, fit in a uint64. */
  ghost predicate SupplyFits(st: State, op: Op) {
    Tokens(st) <= MAX_U64 && (Distributes(st, op) ==> st.pool.totalBurned + st.intents[op.id].locked <= MAX_U64)
  }

  lemma StepConserves(st: State, op: Op)
    requires SupplyFits(st, op)
    ensures Tokens(Step(st, op)) + LostAt(st, op) == Tokens(st) + MintedAt(st, op)
  {
    match op
    case OpFinalize(id, r, f, now) => if Distributes(st, op) { DistributionConservesExactly(st, id, r, f, now); }
    case OpSpendFinite(_, _, _) => SpendsConserve(st, op);
    case OpSpendPermanent(_, _, _) => SpendsConserve(st, op);
    case OpCloseFund(id, now) => CloseConserves(st, id, now);
    case OpTerminate(id, now) => TerminateConserves(st, id, now);
    case OpSettle(id, now) => SettleConserves(st, id, now);
    case _ => AdditionsConserve(st, op);
  }

  /** A safe distribution mints nothing. */
  lemma SafeMintsNothing(st: State, op: Op)
    requires Inv(st) && Safe(st, op)
    ensures MintedAt(st, op) == 0
  {
    if Distributes(st, op) { SafeMeansCovered(st, op.id, op.retrieval, op.foundation); }
  }

  ghost predicate RunSupplyFits(st: State, ops: seq<Op>)
    decreases |ops|
  {
    ops == [] || (SupplyFits(st, ops[0]) && RunSupplyFits(Step(st, ops[0]), ops[1..]))
  }

  function LostAlong(st: State, ops: seq<Op>): nat
    decreases |ops|
  {
    if ops == [] then 0 else LostAt(st, ops[0]) + LostAlong(Step(st, ops[0]), ops[1..])
  }

  function MintedAlong(st: State, ops: seq<Op>): nat
    decreases |ops|
  {
    if ops == [] then 0 else MintedAt(st, ops[0]) + MintedAlong(Step(st, ops[0]), ops[1..])
  }

  /** Over every run, what is held, paid out and burned changes by exactly what clamped distributions
      mint less the shares credited to the owners of the deals being finalized; tokens are conserved
      if and only if the two are equal. */
  lemma {:induction false} RunConservesExactly(st: State, ops: seq<Op>)
    requires RunSupplyFits(st, ops)
    ensures Tokens(Run(st, ops)) + LostAlong(st, ops) == Tokens(st) + MintedAlong(st, ops)
    ensures Tokens(Run(st, ops)) == Tokens(st) <==> LostAlong(st, ops) == MintedAlong(st, ops)
    decreases |ops|
  {
    if ops != [] {
      StepConserves(st, ops[0]);
      RunConservesExactly(Step(st, ops[0]), ops[1..]);
    }
  }

  /** In runs whose finalizations and settlements are safe nothing is minted. */
  lemma {:induction false} SafeRunsMintNothing(st: State, ops: seq<Op>)
    requires Inv(st) && RunFits(st, ops)
    ensures MintedAlong(st, ops) == 0
    decreases |ops|
  {
    if ops != [] {
      SafeMintsNothing(st, ops[0]);
      StepKeepsInv(st, ops[0]);
      SafeRunsMintNothing(Step(st, ops[0]), ops[1..]);
    }
  }

  /** A 1000-unit deal whose owner is the retrieval address: 90 units leave the account, 30 go to the
      foundation, 30 are burned and 30 are gone. */
  lemma OwnShareIsLost(st: State, id: Id, foundation: Addr, now: int)
    requires id in st.intents && st.intents[id].locked == 1000 && st.intents[id].user != "" && foundation !in {"", st.intents[id].user}
    requires 90 <= AcctOf(st.accounts, st.intents[id].user).locked && st.pool.totalBurned + 1000 <= MAX_U64
    ensures Tokens(DistributeFee(st, id, st.intents[id].user, foundation, now)) == Tokens(st) - 30
  {
    assert WrapMul(1000, SHARE_BPS) == 300000;
    DistributionConservesExactly(st, id, st.intents[id].user, foundation, now);
  }
}
