/** What each storage operation does to a deal, in the fields of the records alone: when it is accepted,
    which amounts it moves and which dates it sets. The ledger's steps are held against these. */
module StorageTerms {
  import opened Numbers
  import opened Escrow
  import opened StorageLedger
  import opened StoragePayments

  const SEVEN_DAYS: int := 604_800

  // ---------------------------------------------------------------- finalizing

  /** Finalizing at `now` starts the deal's term there, unless its record has a start already, and
      ends it one duration later. */
  lemma FinalizeSetsTerm(st: State, id: Id, retrieval: Addr, foundation: Addr, now: int)
    requires id in st.intents && st.intents[id].status != Finalized && st.intents[id].duration > 0 && now != 0
    ensures var i := st.intents[id];
            var end := Step(st, OpFinalize(id, retrieval, foundation, now));
            && id in end.intents && id in end.deals
            && end.intents[id].status == Finalized && end.intents[id].active
            && end.intents[id].updated == now && end.intents[id].expires == now + i.duration
            && end.deals[id].start == (if id in st.deals && st.deals[id].start != 0 then st.deals[id].start else now)
            && end.deals[id].expires == now + i.duration
  {
    var i := st.intents[id];
    var n := if i.deferred then FinalizedIntent(i, retrieval, foundation, now) else Reactivated(i, now);
    RecordStarts(st.deals, id, n, now);
  }

  lemma RecordStarts(deals: map<Id, Deal>, id: Id, n: Intent, now: int)
    requires n.status == Finalized && n.updated == now && n.duration > 0 && now != 0
    ensures var e := DealOf(deals, id, n);
            forall burned :: var a := Activated(e.(burned := burned), n, now);
              && a == Activated(e, n, now).(burned := burned)
              && a.start == (if id in deals && deals[id].start != 0 then deals[id].start else now)
              && a.expires == now + n.duration
  {
  }

  /** The deferred fee is cut into three equal shares of 3%, rounded down (`x`; the product wraps), and
      the miner part. The retrieval and foundation shares are paid out, the third is burned. */
  lemma FinalizeSplitsFee(st: State, id: Id, retrieval: Addr, foundation: Addr, now: int, x: nat)
    requires id in st.intents && st.intents[id].status != Finalized && st.intents[id].deferred
    requires 10000 * x <= st.intents[id].locked * 300 % TWO64 < 10000 * (x + 1)
    requires (retrieval != foundation || retrieval == "") && st.intents[id].user != retrieval && st.intents[id].user != foundation
    ensures 3 * x <= st.intents[id].locked
    ensures var i := st.intents[id];
            var end := Step(st, OpFinalize(id, retrieval, foundation, now));
            && id in end.intents && end.intents[id].locked == i.locked - 3 * x && !end.intents[id].deferred
            && end.intents[id].burned == x + (if retrieval == "" then x else 0) + (if foundation == "" then x else 0)
            && AcctOf(end.accounts, i.user) == AcctOf(st.accounts, i.user).(locked := Sub(AcctOf(st.accounts, i.user).locked, 3 * x))
            && (retrieval != "" ==> AcctOf(end.accounts, retrieval).balance == AcctOf(st.accounts, retrieval).balance + x)
            && (foundation != "" ==> AcctOf(end.accounts, foundation).balance == AcctOf(st.accounts, foundation).balance + x)
  {
    SharesAre(st.intents[id].locked, x);
  }

  lemma SharesAre(total: nat, x: nat)
    requires 10000 * x <= total * 300 % TWO64 < 10000 * (x + 1)
    ensures SplitOf(total) == Split(x, x, x, total - 3 * x)
  {
    QuotientIs(total * 300 % TWO64, 10000, x);
  }

  // ---------------------------------------------------------------- spending

  /** What has accrued of a fee over a term. */
  ghost predicate AccruedBy(locked: nat, start: int, end: int, now: int, due: nat)
    requires start < end
  {
    && (now <= start ==> due == 0)
    && (start < now < end ==> due == locked * (now - start) / (end - start))
    && (now >= end ==> due == locked)
  }

  /** A finite deal whose record and dates are in order. */
  ghost predicate Running(i: Intent, e: Deal) {
    i.duration > 0 && i.status == Finalized && 0 < i.locked && Solvent(i) && e.start != 0 && i.expires > 0 && e.start < i.expires
  }

  lemma DrawIs(i: Intent, e: Deal, requested: nat, now: int, due: nat)
    requires Running(i, e) && AccruedBy(i.locked, e.start, i.expires, now, due)
    ensures var s := Synced(i, Some(e));
            && Accrued(s, i, now) == due && s.paid == i.paid
            && Draw(s, i, requested, now) == Min(requested, Min(Sub(due, i.paid), i.locked - i.paid - i.refunded - i.burned))
  {
    SolventRemaining(i);
    RecordedTermAccrues(Synced(i, Some(e)), i, now);
  }

  /** A spend on a finite deal takes what was asked for, up to what has accrued and is not paid yet,
      up to what is left of the fee, and up to what the owner has locked. */
  lemma FiniteSpendIs(st: State, id: Id, requested: nat, now: int, due: nat)
    requires id in st.intents && id in st.deals && requested > 0 && Running(st.intents[id], st.deals[id])
    requires AccruedBy(st.intents[id].locked, st.deals[id].start, st.intents[id].expires, now, due)
    ensures var i := st.intents[id];
            var acct := AcctOf(st.accounts, i.user);
            var amount := Min(Min(requested, Min(Sub(due, i.paid), i.locked - i.paid - i.refunded - i.burned)), acct.locked);
            var (end, paid) := SpendFinite(st, id, requested, now);
            && end == Step(st, OpSpendFinite(id, requested, now)) && paid == amount
            && end.intents == st.intents[id := i.(paid := i.paid + amount)]
            && AcctOf(end.accounts, i.user) == acct.(locked := acct.locked - amount)
            && id in end.deals && end.deals[id].paid == i.paid + amount && end.deals[id].accrued == due
  {
    var i := st.intents[id];
    DrawIs(i, st.deals[id], requested, now, due);
    SpendTakes(st, id, requested, now, Synced(i, Some(st.deals[id])), Draw(Synced(i, Some(st.deals[id])), i, requested, now));
  }

  lemma SpendTakes(st: State, id: Id, requested: nat, now: int, s: Deal, draw: nat)
    requires id in st.intents && id in st.deals && requested > 0 && !Permanent(st.intents[id]) && st.intents[id].locked > 0
    requires s == Synced(st.intents[id], Some(st.deals[id])) && draw == Draw(s, st.intents[id], requested, now)
    requires s.paid == st.intents[id].paid && s.paid + draw <= MAX_U64
    ensures var i := st.intents[id];
            var acct := AcctOf(st.accounts, i.user);
            var amount := Min(draw, acct.locked);
            var (end, paid) := SpendFinite(st, id, requested, now);
            && paid == amount
            && end.intents == st.intents[id := i.(paid := i.paid + amount)]
            && AcctOf(end.accounts, i.user) == acct.(locked := acct.locked - amount)
            && id in end.deals && end.deals[id].paid == i.paid + amount && end.deals[id].accrued == Accrued(s, i, now)
  {
    var i := st.intents[id];
    assert i == i.(paid := i.paid + 0);
    assert st.intents == st.intents[id := i];
  }

  /** A deal finalized at `t0` and then asked for everything at `now` pays the elapsed fraction of its
      miner part, less only what the burn recorded at finalization withholds near the end. */
  lemma FinalizedDealPaysByTime(st: State, id: Id, retrieval: Addr, foundation: Addr, t0: int, now: int, requested: nat, x: nat, due: nat)
    requires id in st.intents && id !in st.deals && 0 < t0 < now
    requires var i := st.intents[id]; i.status == Uploading && i.deferred && 0 < i.duration && 0 < i.locked <= MAX_U64 && Used(i) == 0
    requires 10000 * x <= st.intents[id].locked * 300 % TWO64 < 10000 * (x + 1)
    requires (retrieval != foundation || retrieval == "") && st.intents[id].user != retrieval && st.intents[id].user != foundation
    requires AcctOf(st.accounts, st.intents[id].user).locked >= st.intents[id].locked && requested >= st.intents[id].locked
    requires 3 * x <= st.intents[id].locked && AccruedBy(st.intents[id].locked - 3 * x, t0, t0 + st.intents[id].duration, now, due)
    ensures var i := st.intents[id];
            var mid := Step(st, OpFinalize(id, retrieval, foundation, t0));
            var end := Step(mid, OpSpendFinite(id, requested, now));
            var part, burned := i.locked - 3 * x, x + (if retrieval == "" then x else 0) + (if foundation == "" then x else 0);
            && id in end.intents && 0 <= burned <= part
            && end.intents[id].paid == Min(due, part - burned)
  {
    var i := st.intents[id];
    var mid := Step(st, OpFinalize(id, retrieval, foundation, t0));
    FinalizeSetsTerm(st, id, retrieval, foundation, t0);
    FinalizeSplitsFee(st, id, retrieval, foundation, t0, x);
    FinalizedIsRunning(st, id, retrieval, foundation, t0);
    RunningDealPays(mid, id, requested, now, i.locked - 3 * x, due);
  }

  lemma RunningDealPays(st: State, id: Id, requested: nat, now: int, part: nat, due: nat)
    requires id in st.intents && id in st.deals && Running(st.intents[id], st.deals[id])
    requires var i := st.intents[id]; i.locked == part && i.paid == 0 && i.refunded == 0
    requires AccruedBy(part, st.deals[id].start, st.intents[id].expires, now, due)
    requires AcctOf(st.accounts, st.intents[id].user).locked >= part && requested >= part
    ensures var end := Step(st, OpSpendFinite(id, requested, now));
            && id in end.intents && 0 <= st.intents[id].burned <= part
            && end.intents[id].paid == Min(due, part - st.intents[id].burned)
  {
    DueWithin(part, st.deals[id].start, st.intents[id].expires, now, due);
    FiniteSpendIs(st, id, requested, now, due);
  }

  lemma DueWithin(locked: nat, start: int, end: int, now: int, due: nat)
    requires start < end && AccruedBy(locked, start, end, now, due)
    ensures due <= locked
  {
    if start < now < end { DivBound(locked, now - start, end - start); }
  }

  lemma FinalizedIsRunning(st: State, id: Id, retrieval: Addr, foundation: Addr, t0: int)
    requires id in st.intents && id !in st.deals && 0 < t0
    requires var i := st.intents[id]; i.status == Uploading && i.deferred && 0 < i.duration && 0 < i.locked <= MAX_U64 && Used(i) == 0
    ensures var mid := Step(st, OpFinalize(id, retrieval, foundation, t0));
            && id in mid.intents && id in mid.deals && Running(mid.intents[id], mid.deals[id])
            && mid.intents[id].paid == 0 && mid.intents[id].refunded == 0
  {
    FinalizeSetsTerm(st, id, retrieval, foundation, t0);
  }

  // ---------------------------------------------------------------- paying rewards

  /** A reward on a permanent deal comes out of its fund, up to what the owner has locked; only what is
      then missing comes out of the reserve, and only once an open fund has reached the takeover age. */
  lemma PermanentRewardIs(st: State, reserve: Reserve, id: Id, reward: nat, now: int)
    requires id in st.intents && id in st.funds && st.intents[id].duration <= 0 && reward > 0
    requires st.funds[id].created != 0
    ensures var f, acct := st.funds[id], AcctOf(st.accounts, st.intents[id].user);
            var p := Pay(st, reserve, id, reward, now);
            && p.fromDeal == (if f.closed then 0 else Min(Min(reward, f.balance), acct.locked))
            && p.fromReserve == (if reserve.takeover > 0 && !f.closed && now >= f.created + reserve.takeover
                                 then Min(reward - p.fromDeal, reserve.tokens) else 0)
            && p.reserve == reserve.(tokens := reserve.tokens - p.fromReserve)
  {
  }

  // ---------------------------------------------------------------- topping up

  /** A top-up is accepted exactly from the deal's own user, for a permanent and distributed deal, with
      the balance there; it moves the amount into the deal, its fund and the owner's locked storage. */
  lemma TopUpIs(st: State, id: Id, user: Addr, amount: nat, now: int)
    ensures var end := Step(st, OpTopUp(id, user, amount, now));
            if amount > 0 && id in st.intents && st.intents[id].user == user && st.intents[id].duration <= 0
               && !st.intents[id].deferred && amount <= AcctOf(st.accounts, user).balance
            then
              var i, acct := st.intents[id], AcctOf(st.accounts, user);
              var held := if id in st.funds then st.funds[id].balance else Remaining(i);
              && end.accounts == st.accounts[user := Acct(acct.balance - amount, acct.locked + amount)]
              && end.intents == st.intents[id := i.(locked := i.locked + amount, updated := now)]
              && id in end.funds && end.funds[id].balance == SatAdd(held, amount) && !end.funds[id].closed
              && id in end.deals && end.deals[id].locked == i.locked + amount
            else end == st
  {
  }

  // ---------------------------------------------------------------- renewing

  /** The date a deal expires: finalized deals without a recorded one count from their last update. */
  ghost predicate ExpiresOn(i: Intent, date: int) {
    date == if i.expires == 0 && i.status == Finalized && i.duration > 0 && i.updated > 0 then i.updated + i.duration else i.expires
  }

  /** What a renewal does: the price moves from the balance into the deal, the deal and its record
      expire one new duration from now. */
  ghost predicate Extended(st: State, end: State, id: Id, duration: int, price: nat, now: int)
    requires id in st.intents
  {
    var i := st.intents[id];
    var acct := AcctOf(st.accounts, i.user);
    && price <= acct.balance
    && end.accounts == st.accounts[i.user := Acct(acct.balance - price, acct.locked + price)]
    && end.intents.Keys == st.intents.Keys && end.intents[id].locked == i.locked + price
    && end.intents[id].expires == now + duration && end.intents[id].status == Finalized && end.intents[id].active
    && id in end.deals && (now + duration > 0 ==> end.deals[id].expires == now + duration) && end.deals[id].locked == i.locked + price
    && end.pool.totalLocked == SatAdd(st.pool.totalLocked, price)
  }

  /** A renewal is accepted exactly from the deal's own user, for a renewable deal that is finalized and
      not past its grace week, or expired and not past it, for no longer than its duration, with the
      price there. */
  lemma RenewIs(st: State, id: Id, user: Addr, duration: int, price: nat, now: int, date: int)
    requires id in st.intents && ExpiresOn(st.intents[id], date)
    ensures var i, end := st.intents[id], Step(st, OpRenew(id, user, duration, price, now));
            if duration > 0 && i.user == user && i.renewable && price <= AcctOf(st.accounts, user).balance
               && ((i.status == Finalized && (date > now || now <= date + SEVEN_DAYS)) || (i.status == Expired && now <= date + SEVEN_DAYS))
               && (i.duration <= 0 || duration <= i.duration)
            then Extended(st, end, id, duration, price, now) && end.intents[id].duration == duration
            else end == st
  {
  }

  /** The automatic renewal takes a finalized, active deal whose user asked for it, in the week after its
      expiry; a deal without a duration gets thirty days. */
  lemma AutoRenewIs(st: State, id: Id, price: nat, now: int)
    requires id in st.intents
    ensures var i, end := st.intents[id], Step(st, OpAutoRenew(id, price, now));
            if i.autoRenew && i.renewable && i.status == Finalized && i.active
               && i.expires <= now <= i.expires + SEVEN_DAYS && price <= AcctOf(st.accounts, i.user).balance
            then Extended(st, end, id, if i.duration <= 0 then 2_592_000 else i.duration, price, now)
                 && end.intents[id].duration == i.duration
            else end == st
  {
  }

  // ---------------------------------------------------------------- ending a deal

  /** When a deal's time is over: an upload past its deadline, a finalized finite deal a week past its
      expiry (`date`) unless it is to be retained, or an expired deal. */
  ghost predicate TimeIsOver(i: Intent, date: int, now: int) {
    || (i.status == Uploading && now > i.deadline)
    || (i.status == Finalized && i.duration > 0 && now >= date + SEVEN_DAYS && !i.retain)
    || i.status == Expired
  }

  ghost predicate EndsOn(i: Intent, date: int) {
    date == if i.status == Finalized && i.duration > 0 && i.expires == 0 then i.updated + i.duration else i.expires
  }

  lemma SettlesWhenOver(i: Intent, date: int, now: int)
    requires EndsOn(i, date)
    ensures CanSettle(i, now) <==> TimeIsOver(i, date, now)
    ensures var n := Settling(i, now);
            && Used(n) == Used(i) && n.locked == i.locked && n.refunded == i.refunded && n.user == i.user
            && (TimeIsOver(i, date, now) ==> n.status == Expired && (i.status != Expired ==> !n.active))
            && (!TimeIsOver(i, date, now) ==> n.status == i.status && n.active == i.active)
  {
  }

  lemma RefundIs(st: State, id: Id)
    requires id in st.intents && Solvent(st.intents[id])
    ensures var i, end := st.intents[id], Refund(st, id);
            var acct := AcctOf(st.accounts, i.user);
            var left := Min(i.locked - i.paid - i.refunded - i.burned, acct.locked);
            && AcctOf(end.accounts, i.user) == Acct(acct.balance + left, acct.locked - left)
            && id in end.intents && end.intents[id] == i.(refunded := i.refunded + left)
  {
    SolventRemaining(st.intents[id]);
  }

  /** Settlement refunds what is left of a deal exactly when its time is over, and the tokens go back to
      the owner's balance; otherwise no money moves and the status stays. */
  lemma SettleIs(st: State, id: Id, now: int, date: int)
    requires id in st.intents && Solvent(st.intents[id]) && EndsOn(st.intents[id], date)
    ensures var i, end := st.intents[id], Step(st, OpSettle(id, now));
            var acct := AcctOf(st.accounts, i.user);
            var left := if TimeIsOver(i, date, now) then Min(i.locked - i.paid - i.refunded - i.burned, acct.locked) else 0;
            && AcctOf(end.accounts, i.user) == Acct(acct.balance + left, acct.locked - left)
            && id in end.intents && end.intents[id].refunded == i.refunded + left
            && end.intents[id].status == (if TimeIsOver(i, date, now) then Expired else i.status)
            && (TimeIsOver(i, date, now) && i.status != Expired ==> !end.intents[id].active)
            && (!TimeIsOver(i, date, now) ==> end.accounts == st.accounts && end.pool == st.pool && end.deals == st.deals)
  {
    SettlesWhenOver(st.intents[id], date, now);
    if TimeIsOver(st.intents[id], date, now) { RefundIs(Marked(st, id, Settling(st.intents[id], now)), id); }
  }

  lemma BurnIs(st: State, id: Id)
    requires id in st.intents && Solvent(st.intents[id])
    ensures var i, end := st.intents[id], Burn(st, id).0;
            var acct := AcctOf(st.accounts, i.user);
            var left := Min(i.locked - i.paid - i.refunded - i.burned, acct.locked);
            && AcctOf(end.accounts, i.user) == acct.(locked := acct.locked - left)
            && id in end.intents && end.intents[id] == i.(burned := i.burned + left)
            && end.pool.totalBurned == if left == 0 then st.pool.totalBurned else SatAdd(st.pool.totalBurned, left)
  {
    SolventRemaining(st.intents[id]);
  }

  /** Ending a finite deal early burns what is left of it: the owner's balance gains nothing. */
  lemma TerminateBurns(st: State, id: Id, now: int)
    requires id in st.intents && Solvent(st.intents[id]) && st.intents[id].duration > 0
    ensures var i, end := st.intents[id], Step(st, OpTerminate(id, now));
            var acct := AcctOf(st.accounts, i.user);
            var left := Min(i.locked - i.paid - i.refunded - i.burned, acct.locked);
            if i.status == Deleted then end == st
            else
              && id in end.intents && end.intents[id].burned == i.burned + left && !end.intents[id].active
              && AcctOf(end.accounts, i.user) == acct.(locked := acct.locked - left)
              && end.pool.totalBurned == if left == 0 then st.pool.totalBurned else SatAdd(st.pool.totalBurned, left)
  {
    var i, n := st.intents[id], Terminating(st.intents[id], now);
    TerminatingKeepsMoney(i, now);
    BurnIs(Marked(st, id, n), id);
    assert i.status != Deleted ==> Step(st, OpTerminate(id, now)) == Burn(Marked(st, id, n), id).0;
  }

  lemma TerminatingKeepsMoney(i: Intent, now: int)
    ensures var n := Terminating(i, now);
            && n.user == i.user && n.locked == i.locked && Used(n) == Used(i) && !n.active && n.duration == i.duration
            && n.paid == i.paid && n.refunded == i.refunded && n.burned == i.burned
  {
  }

  /** Ending a permanent deal early burns its open fund, as far as the owner has it locked, and closes it. */
  lemma TerminateClosesFund(st: State, id: Id, now: int)
    requires id in st.intents && id in st.funds && st.intents[id].duration <= 0 && st.intents[id].status != Deleted
    requires st.intents[id].burned + st.funds[id].balance <= MAX_U64
    ensures var i, f, end := st.intents[id], st.funds[id], Step(st, OpTerminate(id, now));
            var acct := AcctOf(st.accounts, i.user);
            var left := if f.closed then 0 else Min(f.balance, acct.locked);
            && id in end.intents && end.intents[id].burned == i.burned + left && !end.intents[id].active
            && AcctOf(end.accounts, i.user) == acct.(locked := acct.locked - left)
            && id in end.funds && end.funds[id].closed && (!f.closed ==> end.funds[id].balance == 0)
  {
  }
}
