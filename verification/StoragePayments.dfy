/** Paying storage rewards: the quote a proof is promised and the payment it then receives. */
module StoragePayments {
  import opened Numbers
  import opened Escrow
  import opened StorageLedger

  /** The platform reserve behind permanent deals, and the fund age from which it steps in. */
  datatype Reserve = Reserve(tokens: nat, takeover: int)

  function Subsidy(f: Fund, shortfall: nat, reserve: Reserve, now: int): nat {
    if shortfall == 0 || reserve.takeover <= 0 || f.closed || now - f.created < reserve.takeover then 0
    else Min(shortfall, reserve.tokens)
  }

  /** The escrow money a reward can draw on, before the clamp on the account. */
  function FeeAvailable(st: State, id: Id, now: int): nat
    requires id in st.intents
  {
    var i := st.intents[id];
    if Permanent(i) then FundOf(st.funds, id, i, 0).balance
    else Min(Available(DealOf(st.deals, id, i), i, now), Remaining(i))
  }

  /** `payableStorageRewardLocked`, clamp on locked storage included. */
  function Payable(st: State, reserve: Reserve, id: Id, reward: nat, now: int): nat {
    if reward == 0 || id !in st.intents then 0
    else
      var i := st.intents[id];
      var fee := Min(FeeAvailable(st, id, now), AcctOf(st.accounts, i.user).locked);
      if fee >= reward then reward
      else if !Permanent(i) then fee
      else Min(SatAdd(fee, Subsidy(FundOf(st.funds, id, i, 0), reward - fee, reserve, now)), reward)
  }

  /** `payStorageRewardLocked`: what is vested to the miner, from the deal and from the reserve. */
  datatype Payment = Payment(state: State, reserve: Reserve, fromDeal: nat, fromReserve: nat)

  function Pay(st: State, reserve: Reserve, id: Id, reward: nat, now: int): Payment {
    if reward == 0 || id !in st.intents then Payment(st, reserve, 0, 0)
    else
      var (mid, paid) := if Permanent(st.intents[id]) then SpendPermanent(st, id, reward, now) else SpendFinite(st, id, reward, now);
      if paid >= reward || !Permanent(st.intents[id]) || id !in mid.intents then Payment(mid, reserve, paid, 0)
      else
        var subsidy := Subsidy(FundOf(mid.funds, id, mid.intents[id], now), reward - paid, reserve, now);
        Payment(mid, if subsidy <= reserve.tokens then reserve.(tokens := reserve.tokens - subsidy) else reserve, paid, subsidy)
  }

  /** The fund's age is the same for the quote and for the payment. */
  ghost predicate AgeKnown(st: State, id: Id) {
    id in st.intents && (st.intents[id].created != 0 || (id in st.funds && st.funds[id].created != 0))
  }

  /** A fund without a recorded age looks older than the takeover time to the quote and brand new to
      the payment; this is when that makes a difference. */
  ghost predicate AgeMatters(st: State, reserve: Reserve, id: Id, reward: nat, now: int) {
    && id in st.intents && Permanent(st.intents[id])
    && !FundOf(st.funds, id, st.intents[id], now).closed
    && 0 < reserve.takeover <= now && 0 < reserve.tokens
    && reward > Remaining(st.intents[id])
  }

  lemma SpendTakesFee(st: State, id: Id, reward: nat, now: int)
    requires Inv(st) && id in st.intents && reward > 0
    ensures var i := st.intents[id];
            && FeeAvailable(st, id, now) <= Remaining(i) <= AcctOf(st.accounts, i.user).locked
            && (Permanent(i) ==> FeeAvailable(st, id, now) == Remaining(i)
                                 && SpendPermanent(st, id, reward, now).1 == Min(reward, Remaining(i)))
            && (!Permanent(i) ==> SpendFinite(st, id, reward, now).1 == Min(reward, FeeAvailable(st, id, now)))
  {
    AccountCoversIntent(st, id);
    if Permanent(st.intents[id]) {
      FundHoldsRemaining(st, id, 0);
      FundHoldsRemaining(st, id, now);
    }
  }

  /** After a permanent spend, the fund still answers the questions a subsidy asks of it. */
  lemma SpendKeepsFundAge(st: State, id: Id, reward: nat, now: int)
    requires Inv(st) && id in st.intents && reward > 0 && Permanent(st.intents[id]) && now > 0
    ensures var mid := SpendPermanent(st, id, reward, now).0;
            && id in mid.intents
            && var f, g := FundOf(st.funds, id, st.intents[id], now), FundOf(mid.funds, id, mid.intents[id], now);
            f.closed == g.closed && f.created == g.created
  {
  }

  lemma QuoteWithinReward(st: State, reserve: Reserve, id: Id, reward: nat, now: int)
    ensures Payable(st, reserve, id, reward, now) <= reward
  {
  }

  /** A proof is quoted an amount for its reward and is then paid that amount: the payment vests
      exactly the quote, for finite and permanent deals and with or without the subsidy, if and only
      if the fund's age is known to the quote or the age makes no difference. */
  lemma QuoteIsPaid(st: State, reserve: Reserve, id: Id, reward: nat, now: int)
    requires Inv(st) && now > 0 && reward <= MAX_U64
    ensures var q := Payable(st, reserve, id, reward, now);
            var p := Pay(st, reserve, id, q, now);
            p.fromDeal + p.fromReserve == q <==> AgeKnown(st, id) || !AgeMatters(st, reserve, id, reward, now)
  {
    var q := Payable(st, reserve, id, reward, now);
    QuoteWithinReward(st, reserve, id, reward, now);
    if id in st.intents && reward > 0 {
      if Permanent(st.intents[id]) {
        PermanentQuoteIsPaid(st, reserve, id, reward, now);
      } else {
        SpendTakesFee(st, id, reward, now);
        if q > 0 { SpendTakesFee(st, id, q, now); }
      }
    }
  }

  lemma PermanentQuoteIsPaid(st: State, reserve: Reserve, id: Id, reward: nat, now: int)
    requires Inv(st) && now > 0 && 0 < reward <= MAX_U64 && id in st.intents && Permanent(st.intents[id])
    ensures var q := Payable(st, reserve, id, reward, now);
            var p := Pay(st, reserve, id, q, now);
            p.fromDeal + p.fromReserve == q <==> AgeKnown(st, id) || !AgeMatters(st, reserve, id, reward, now)
  {
    var q := Payable(st, reserve, id, reward, now);
    PermanentQuote(st, reserve, id, reward, now);
    SpendTakesFee(st, id, reward, now);
    if q > 0 {
      SpendTakesFee(st, id, q, now);
      SpendKeepsFundAge(st, id, q, now);
      PermanentQuote(st, reserve, id, q, now);
    }
  }

  lemma PermanentQuote(st: State, reserve: Reserve, id: Id, reward: nat, now: int)
    requires Inv(st) && now > 0 && 0 < reward <= MAX_U64 && id in st.intents && Permanent(st.intents[id])
    ensures var i := st.intents[id];
            var rest := if Remaining(i) >= reward then 0 else reward - Remaining(i);
            var quoted, paid := FundOf(st.funds, id, i, 0), FundOf(st.funds, id, i, now);
            && Payable(st, reserve, id, reward, now) == Min(reward, Remaining(i)) + Subsidy(quoted, rest, reserve, now)
            && (Subsidy(quoted, rest, reserve, now) == Subsidy(paid, rest, reserve, now)
                <==> AgeKnown(st, id) || !AgeMatters(st, reserve, id, reward, now))
  {
    SpendTakesFee(st, id, reward, now);
  }

  lemma SpendLowersLocked(st: State, id: Id, reward: nat, now: int)
    requires Inv(st) && id in st.intents && reward > 0
    ensures var u := st.intents[id].user;
            var (end, paid) := if Permanent(st.intents[id]) then SpendPermanent(st, id, reward, now) else SpendFinite(st, id, reward, now);
            AcctOf(end.accounts, u).locked == AcctOf(st.accounts, u).locked - paid && id in end.intents && paid <= reward
  {
    SpendTakesFee(st, id, reward, now);
  }

  /** A payment only moves tokens: what is vested left the owner's locked balance or the reserve. */
  lemma PaymentConserves(st: State, reserve: Reserve, id: Id, reward: nat, now: int)
    requires Inv(st) && id in st.intents && reward > 0 && now > 0
    ensures var p := Pay(st, reserve, id, reward, now);
            var u := st.intents[id].user;
            && p.fromDeal == AcctOf(st.accounts, u).locked - AcctOf(p.state.accounts, u).locked
            && p.fromReserve == reserve.tokens - p.reserve.tokens
            && p.fromDeal + p.fromReserve <= reward
  {
    SpendLowersLocked(st, id, reward, now);
  }
}
