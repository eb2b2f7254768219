/** The escrow operations as the store performs them, field by field. Each method computes its step
    of `StorageLedger`, in every state; additions need the sums to fit in 64 bits. */
module StorageStore {
  import opened Numbers
  import opened Sums
  import opened Escrow
  import opened StorageLedger
  import opened StorageTotals
  import opened StoragePayments

  class Store {
    var accounts: map<Addr, Acct>
    var intents: map<Id, Intent>
    var funds: map<Id, Fund>
    var deals: map<Id, Deal>
    var pool: Pool
    var reserve: Reserve
    ghost var stranded: map<Id, nat>

    ghost function View(): State
      reads this
    {
      State(accounts, intents, funds, deals, pool, stranded)
    }

    constructor (reserve: Reserve)
      ensures View() == State(map[], map[], map[], map[], Pool(0, 0, 0, 0, 0), map[]) && this.reserve == reserve
      ensures Inv(View()) && Books(View())
    {
      accounts, intents, funds, deals := map[], map[], map[], map[];
      pool := Pool(0, 0, 0, 0, 0);
      this.reserve := reserve;
      stranded := map[];
      new;
      forall u ensures Sum(intents, OwedBy(u, stranded)) == 0 { SumEmpty(intents, OwedBy(u, stranded)); }
      SumEmpty(deals, LockedAt);
      SumEmpty(funds, OpenBalanceAt);
    }

    /** Takes at most `amount` out of an account's locked storage and says how much it took. */
    method Unlock(user: Addr, amount: nat) returns (taken: nat)
      modifies this`accounts
      ensures taken == Min(amount, AcctOf(old(accounts), user).locked)
      ensures accounts == if taken == 0 then old(accounts)
                          else old(accounts)[user := AcctOf(old(accounts), user).(locked := AcctOf(old(accounts), user).locked - taken)]
    {
      var acct := AcctOf(accounts, user);
      taken := amount;
      if taken > acct.locked { taken := acct.locked; }
      if taken == 0 { return; }
      accounts := accounts[user := acct.(locked := acct.locked - taken)];
    }

    method SpendFiniteFee(id: Id, requested: nat, now: int) returns (amount: nat)
      modifies this
      ensures (View(), amount) == SpendFinite(old(View()), id, requested, now) && reserve == old(reserve)
    {
      if id !in intents || requested == 0 || Permanent(intents[id]) { return 0; }
      var i := intents[id];
      var e := DealOf(deals, id, i);
      amount := requested;
      if amount > Available(e, i, now) { amount := Available(e, i, now); }
      if amount > Remaining(i) { amount := Remaining(i); }
      amount := Unlock(i.user, amount);
      if amount == 0 {
        deals := deals[id := e.(accrued := Accrued(e, i, now))];
        return;
      }
      RecordPayment(id, i.(paid := SatAdd(i.paid, amount)),
                    e.(paid := SatAdd(e.paid, amount), accrued := Accrued(e, i, now)), amount);
    }

    method RecordPayment(id: Id, i: Intent, e: Deal, amount: nat)
      modifies this`intents, this`deals, this`pool
      ensures intents == old(intents)[id := i] && deals == old(deals)[id := e]
      ensures pool == old(pool).(totalPaid := SatAdd(old(pool).totalPaid, amount))
    {
      intents := intents[id := i];
      deals := deals[id := e];
      pool := pool.(totalPaid := SatAdd(pool.totalPaid, amount));
    }

    method SpendPermanentFund(id: Id, requested: nat, now: int) returns (amount: nat)
      modifies this
      ensures (View(), amount) == SpendPermanent(old(View()), id, requested, now) && reserve == old(reserve)
    {
      if id !in intents || requested == 0 || !Permanent(intents[id]) { return 0; }
      var i := intents[id];
      var f := FundOf(funds, id, i, now);
      if f.closed { return 0; }
      amount := Unlock(i.user, Min(requested, f.balance));
      if amount == 0 { return; }
      RecordFundPayment(id, f, i.(paid := SatAdd(i.paid, amount)), amount);
    }

    /** Lowers the fund and its total, and credits the deal and its record. */
    method RecordFundPayment(id: Id, f: Fund, n: Intent, amount: nat)
      requires amount <= f.balance
      modifies this`funds, this`intents, this`deals, this`pool
      ensures funds == old(funds)[id := f.(balance := f.balance - amount, paid := SatAdd(f.paid, amount))]
      ensures intents == old(intents)[id := n]
      ensures var e := DealOf(old(deals), id, n);
              deals == old(deals)[id := e.(paid := SatAdd(e.paid, amount), accrued := SatAdd(e.accrued, amount))]
      ensures pool == old(pool).(totalPaid := SatAdd(old(pool).totalPaid, amount), fundBalance := Sub(old(pool).fundBalance, amount))
    {
      funds := funds[id := f.(balance := f.balance - amount, paid := SatAdd(f.paid, amount))];
      var e := DealOf(deals, id, n);
      RecordPayment(id, n, e.(paid := SatAdd(e.paid, amount), accrued := SatAdd(e.accrued, amount)), amount);
      pool := pool.(fundBalance := Sub(pool.fundBalance, amount));
    }

    method TopUpFund(id: Id, user: Addr, amount: nat, now: int) returns (ok: bool)
      requires Words(View(), id) && Sized(View(), OpTopUp(id, user, amount, now))
      modifies this
      ensures View() == TopUp(old(View()), id, user, amount, now) && ok == CanTopUp(old(View()), id, user, amount)
    {
      if amount == 0 || id !in intents { return false; }
      if intents[id].user != user || !Permanent(intents[id]) || intents[id].deferred { return false; }
      if AcctOf(accounts, user).balance < amount { return false; }
      AddToFund(id, user, amount, now);
      return true;
    }

    /** The same transaction when it arrives in a block. */
    method ReplayTopUp(id: Id, user: Addr, amount: nat, now: int) returns (ok: bool)
      requires Words(View(), id) && Sized(View(), OpReplayTopUp(id, user, amount, now))
      modifies this
      ensures ok == CanReplayTopUp(old(View()), id, user, amount)
      ensures View() == StorageLedger.ReplayTopUp(old(View()), id, user, amount, now)
    {
      if amount == 0 || id !in intents { return false; }
      if intents[id].user != user || !Permanent(intents[id]) { return false; }
      if AcctOf(accounts, user).balance < amount { return false; }
      AddToFund(id, user, amount, now);
      return true;
    }

    method AddToFund(id: Id, user: Addr, amount: nat, now: int)
      requires CanReplayTopUp(View(), id, user, amount) && intents[id].locked + amount <= MAX_U64
      requires AcctOf(accounts, user).balance + AcctOf(accounts, user).locked <= MAX_U64
      modifies this
      ensures View() == ToppedUp(old(View()), id, user, amount, now)
    {
      var i, acct := intents[id], AcctOf(accounts, user);
      accounts := accounts[user := Acct(acct.balance - amount, SatAdd(acct.locked, amount))];
      var f := FundOf(funds, id, i, now);
      funds := funds[id := f.(balance := SatAdd(f.balance, amount), contributed := SatAdd(f.contributed, amount), closed := false)];
      i := i.(locked := SatAdd(i.locked, amount));
      deals := deals[id := ToppedUpDeal(DealOf(deals, id, i), i, now)];
      pool := pool.(totalLocked := SatAdd(pool.totalLocked, amount), fundBalance := SatAdd(pool.fundBalance, amount));
      intents := intents[id := i.(updated := now)];
    }

    /** The money part of both renewals. */
    method Prolong(id: Id, n: Intent, price: nat, now: int)
      requires id in intents && n.locked + price <= MAX_U64
      requires price <= AcctOf(accounts, n.user).balance
      requires AcctOf(accounts, n.user).balance + AcctOf(accounts, n.user).locked <= MAX_U64
      modifies this
      ensures View() == Renewed(old(View()), id, price, n, now)
    {
      var acct := AcctOf(accounts, n.user);
      accounts := accounts[n.user := Acct(acct.balance - price, SatAdd(acct.locked, price))];
      var m := n.(locked := SatAdd(n.locked, price));
      intents := intents[id := m];
      deals := deals[id := ToppedUpDeal(DealOf(deals, id, m), m, now)];
      pool := pool.(totalLocked := SatAdd(pool.totalLocked, price));
    }

    method RenewDeal(id: Id, user: Addr, duration: int, price: nat, now: int) returns (ok: bool)
      requires Words(View(), id) && (id in intents ==> intents[id].locked + price <= MAX_U64)
      modifies this
      ensures View() == Renew(old(View()), id, user, duration, price, now)
      ensures ok == CanRenew(old(View()), id, user, duration, price, now)
    {
      if duration <= 0 || id !in intents || intents[id].user != user || !intents[id].renewable { return false; }
      var view := Normalized(intents[id]);
      match view.status {
        case Finalized => if view.expires <= now && now > view.expires + GRACE { return false; }
        case Expired => if now > view.expires + GRACE { return false; }
        case _ => return false;
      }
      if view.duration > 0 && duration > view.duration { return false; }
      if AcctOf(accounts, user).balance < price { return false; }
      Prolong(id, intents[id].(status := Finalized, active := true, expires := now + duration,
                               duration := duration, updated := now), price, now);
      return true;
    }

    method AutoRenewDeal(id: Id, price: nat, now: int)
      requires Words(View(), id) && (id in intents ==> intents[id].locked + price <= MAX_U64)
      modifies this
      ensures View() == AutoRenew(old(View()), id, price, now)
    {
      if id !in intents { return; }
      var i := intents[id];
      if !i.autoRenew || !i.renewable || i.status != Finalized || !i.active { return; }
      if i.expires > now || now > i.expires + GRACE { return; }
      var duration := i.duration;
      if duration <= 0 { duration := 30 * 86400; }
      if AcctOf(accounts, i.user).balance < price { return; }
      Prolong(id, i.(expires := now + duration, updated := now), price, now);
    }

    /** One pass over the deals, in whatever order the map yields them: a run of single renewals. */
    method AutoRenewAll(price: Id -> nat, now: int) returns (ghost order: seq<Id>)
      requires Inv(View()) && now > GRACE && forall id | id in intents :: intents[id].locked + price(id) <= MAX_U64
      modifies this
      ensures Enumerates(order, old(intents))
      ensures View() == Run(old(View()), AutoRenewOps(order, price, now)) && Inv(View())
    {
      ghost var start := View();
      var todo := intents.Keys;
      order := [];
      while todo != {}
        invariant InPass(start, View(), order, todo, price, now)
      {
        var id :| id in todo;
        PassTurn(start, View(), order, todo, price, now, id);
        AutoRenewDeal(id, price(id), now);
        order := order + [id];
        todo := todo - {id};
      }
    }

    method ClosePermanentFund(id: Id, now: int) returns (burned: nat)
      modifies this
      ensures (View(), burned) == CloseFund(old(View()), id, now)
    {
      if id !in intents || !Permanent(intents[id]) { return 0; }
      var i := intents[id];
      var f := FundOf(funds, id, i, now);
      if f.closed { return 0; }
      burned := Unlock(i.user, f.balance);
      funds := funds[id := f.(balance := 0, burned := SatAdd(f.burned, burned), closed := true)];
      intents := intents[id := i.(burned := SatAdd(i.burned, burned))];
      pool := pool.(totalBurned := SatAdd(pool.totalBurned, burned), fundBalance := Sub(pool.fundBalance, burned));
    }

    method BurnRemaining(id: Id) returns (burn: nat)
      requires id in intents
      modifies this
      ensures (View(), burn) == Burn(old(View()), id)
    {
      var i := intents[id];
      burn := Unlock(i.user, Remaining(i));
      if burn == 0 { return; }
      i := i.(burned := SatAdd(i.burned, burn));
      intents := intents[id := i];
      var e := DealOf(deals, id, i);
      deals := deals[id := e.(burned := SatAdd(e.burned, burn))];
      pool := pool.(totalBurned := SatAdd(pool.totalBurned, burn));
    }

    method TerminateDeal(id: Id, now: int) returns (burned: nat)
      modifies this
      ensures (View(), burned) == Terminate(old(View()), id, now)
    {
      if id !in intents || intents[id].status == Deleted { return 0; }
      var i := Terminating(intents[id], now);
      intents := intents[id := i];
      if Permanent(i) {
        burned := ClosePermanentFund(id, now);
      } else {
        burned := BurnRemaining(id);
      }
    }

    method RefundRemaining(id: Id) returns (refund: nat)
      requires id in intents
      modifies this
      ensures View() == Refund(old(View()), id)
      ensures refund == Min(Remaining(old(intents)[id]), AcctOf(old(accounts), old(intents)[id].user).locked)
    {
      var i := intents[id];
      refund := Unlock(i.user, Remaining(i));
      if refund == 0 { return; }
      var acct := AcctOf(accounts, i.user);
      accounts := accounts[i.user := acct.(balance := acct.balance + refund)];
      i := i.(refunded := i.refunded + refund);
      intents := intents[id := i];
      var e := DealOf(deals, id, i);
      deals := deals[id := e.(refunded := SatAdd(e.refunded, refund))];
      pool := pool.(totalRefunded := SatAdd(pool.totalRefunded, refund));
    }

    method SettleIntent(id: Id, now: int) returns (refund: nat)
      modifies this
      ensures View() == Settle(old(View()), id, now)
    {
      if id !in intents { return 0; }
      ghost var st1 := Marked(View(), id, Settling(intents[id], now));
      var due := MarkSettling(id, now);
      assert View() == st1;
      if !due { return 0; }
      refund := RefundRemaining(id);
    }

    /** Checks the deal's status and times, marks it, and says whether a refund is due. */
    method MarkSettling(id: Id, now: int) returns (due: bool)
      requires id in intents
      modifies this`intents
      ensures intents == old(intents)[id := Settling(old(intents)[id], now)] && due == CanSettle(old(intents)[id], now)
    {
      var i := intents[id];
      match i.status {
        case Uploading => if now <= i.deadline { return false; }
        case Finalized =>
          if i.duration <= 0 { return false; }
          if i.expires == 0 { i := i.(expires := i.updated + i.duration); }
          intents := intents[id := i];
          if now < i.expires + GRACE { return false; }
          if i.retain {
            intents := intents[id := i.(updated := now)];
            return false;
          }
        case Expired =>
        case Deleted => return false;
      }
      i := i.(active := if i.status == Expired then i.active else false, status := Expired, updated := now);
      intents := intents[id := i];
      return true;
    }

    /** Finalizes a deal unless it is finalized already, whatever happened to it before. */
    method FinalizeDeal(id: Id, retrieval: Addr, foundation: Addr, now: int)
      modifies this
      ensures View() == Finalize(old(View()), id, retrieval, foundation, now)
    {
      if id !in intents || intents[id].status == Finalized { return; }
      if intents[id].deferred {
        ExecuteDeferredBurn(id, retrieval, foundation, now);
      } else {
        var n := Reactivated(intents[id], now);
        intents := intents[id := n];
        deals := deals[id := Activated(DealOf(deals, id, n), n, now)];
      }
    }

    /** The deferred fee distribution of a deal being finalized. */
    method ExecuteDeferredBurn(id: Id, retrieval: Addr, foundation: Addr, now: int)
      requires id in intents && intents[id].deferred
      modifies this
      ensures View() == DistributeFee(old(View()), id, retrieval, foundation, now)
    {
      var i := intents[id];
      var s := SplitOf(i.locked);
      var burn := DistributeShares(i.user, s, retrieval, foundation);
      i := i.(status := Finalized, active := true, updated := now,
              expires := if i.duration > 0 then now + i.duration else i.expires,
              locked := s.miner, burned := burn, deferred := false);
      stranded := stranded[id := burn];
      intents := intents[id := i];
      CreateRecords(id, i, burn, now);
    }

    /** Unlocks everything but the miner part and credits the shares that have a recipient. */
    method DistributeShares(owner: Addr, s: Split, retrieval: Addr, foundation: Addr) returns (burn: nat)
      modifies this`accounts
      ensures burn == FinalBurn(s, retrieval, foundation)
      ensures var acct := AcctOf(old(accounts), owner);
              accounts == Paying(Paying(old(accounts), retrieval, s.retrieval), foundation, s.foundation)
                            [owner := acct.(locked := Sub(acct.locked, s.burn + s.retrieval + s.foundation))]
    {
      burn := s.burn;
      var user := AcctOf(accounts, owner);
      var nonMiner := s.burn + s.retrieval + s.foundation;
      if nonMiner > user.locked { nonMiner := user.locked; }
      user := user.(locked := user.locked - nonMiner);
      if s.retrieval > 0 && retrieval != "" {
        var r := AcctOf(accounts, retrieval);
        accounts := accounts[retrieval := r.(balance := r.balance + s.retrieval)];
      } else {
        burn := burn + s.retrieval;
      }
      if s.foundation > 0 && foundation != "" {
        var f := AcctOf(accounts, foundation);
        accounts := accounts[foundation := f.(balance := f.balance + s.foundation)];
      } else {
        burn := burn + s.foundation;
      }
      accounts := accounts[owner := user];
    }

    method CreateRecords(id: Id, i: Intent, burn: nat, now: int)
      modifies this`funds, this`deals, this`pool
      ensures var f, e := FundOf(old(funds), id, i, now), DealOf(old(deals), id, i);
              && funds == (if Permanent(i) then old(funds)[id := f] else old(funds))
              && deals == old(deals)[id := Activated(e.(burned := if burn > 0 then burn else e.burned), i, now)]
              && pool == old(pool).(fundBalance := if Permanent(i) then SatAdd(old(pool).fundBalance, f.balance) else old(pool).fundBalance,
                                    totalLocked := if i.locked == 0 || id in old(deals) then old(pool).totalLocked
                                                   else SatAdd(old(pool).totalLocked, i.locked),
                                    totalBurned := SatAdd(old(pool).totalBurned, burn))
    {
      if Permanent(i) {
        var f := FundOf(funds, id, i, now);
        funds := funds[id := f];
        pool := pool.(fundBalance := SatAdd(pool.fundBalance, f.balance));
      }
      var e := DealOf(deals, id, i);
      if i.locked > 0 && id !in deals {
        pool := pool.(totalLocked := SatAdd(pool.totalLocked, i.locked));
      }
      if burn > 0 { e := e.(burned := burn); }
      pool := pool.(totalBurned := SatAdd(pool.totalBurned, burn));
      deals := deals[id := Activated(e, i, now)];
    }

    /** `rebuildStorageFeePoolForState`: both totals from scratch, in whatever order the maps yield. */
    method Rebuild() returns (totalLocked: nat, fundBalance: nat)
      requires TotalsAgree(View()) && pool.totalLocked <= MAX_U64 && pool.fundBalance <= MAX_U64
      ensures totalLocked == pool.totalLocked && fundBalance == pool.fundBalance
    {
      totalLocked := 0;
      var todo := deals.Keys;
      ghost var left := deals;
      while todo != {}
        invariant todo == left.Keys <= deals.Keys && forall id | id in left :: left[id] == deals[id]
        invariant totalLocked + Sum(left, LockedAt) == pool.totalLocked
      {
        var id :| id in todo;
        SumPick(left, LockedAt, id);
        SumNonNegative(left - {id}, LockedAt);
        totalLocked := SatAdd(totalLocked, deals[id].locked);
        todo, left := todo - {id}, left - {id};
      }
      SumEmpty(left, LockedAt);
      fundBalance := RebuildFunds();
    }

    method RebuildFunds() returns (fundBalance: nat)
      requires TotalsAgree(View()) && pool.fundBalance <= MAX_U64
      ensures fundBalance == pool.fundBalance
    {
      fundBalance := 0;
      var todo := funds.Keys;
      ghost var left := funds;
      while todo != {}
        invariant todo == left.Keys <= funds.Keys && forall id | id in left :: left[id] == funds[id]
        invariant fundBalance + Sum(left, OpenBalanceAt) == pool.fundBalance
      {
        var id :| id in todo;
        SumPick(left, OpenBalanceAt, id);
        SumNonNegative(left - {id}, OpenBalanceAt);
        if !funds[id].closed { fundBalance := SatAdd(fundBalance, funds[id].balance); }
        todo, left := todo - {id}, left - {id};
      }
      SumEmpty(left, OpenBalanceAt);
    }

    /** Pays a storage reward out of the deal and, for permanent deals, out of the reserve; returns
        what is vested to the miner. */
    method PayStorageReward(id: Id, reward: nat, now: int) returns (vested: nat)
      modifies this
      ensures var p := Pay(old(View()), old(reserve), id, reward, now);
              View() == p.state && reserve == p.reserve && vested == p.fromDeal + p.fromReserve
    {
      if reward == 0 || id !in intents { return 0; }
      var permanent := Permanent(intents[id]);
      if permanent {
        vested := SpendPermanentFund(id, reward, now);
      } else {
        vested := SpendFiniteFee(id, reward, now);
      }
      if vested >= reward || !permanent { return; }
      var subsidy := Subsidy(FundOf(funds, id, intents[id], now), reward - vested, reserve, now);
      if subsidy > 0 {
        reserve := reserve.(tokens := reserve.tokens - subsidy);
        vested := vested + subsidy;
      }
    }
  }
}
