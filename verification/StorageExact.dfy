/** Locked storage as the plain sum of remaining escrow: the promise without any allowance for what
    finalizing strands, in values the ledger itself holds, and exactly which runs keep it. */
module StorageExact {
  import opened Numbers
  import opened Sums
  import opened Escrow
  import opened StorageLedger

  /** Each owner's locked storage is the sum of what the owner's deals still hold, no deal spends more
      than it locked, and every permanent fund holds what remains of its deal. */
  ghost predicate Exact(st: State) {
    && (forall u :: AcctOf(st.accounts, u).locked == Sum(st.intents, RemainingOf(u)))
    && (forall id | id in st.intents :: Solvent(st.intents[id]))
    && (forall id | id in st.intents && id in st.funds && Permanent(st.intents[id]) :: st.funds[id].balance == Remaining(st.intents[id]))
  }

  /** When a step keeps it. A distribution takes the shares out of locked storage and records a burn on
      top, so it needs an earlier burn of exactly that size, less what the clamp withholds; with a
      fund stored already, what remains must not change at all. A settlement must not refund a deal
      whose fund is stored. Every other step keeps it. */
  predicate Keeps(st: State, op: Op) {
    op.id in st.intents && st.intents[op.id].deferred ==>
      var i := st.intents[op.id];
      var s := SplitOf(i.locked);
      match op
      case OpFinalize(id, r, f, _) =>
        && i.paid + i.refunded + FinalBurn(s, r, f) <= s.miner
        && i.burned == FinalBurn(s, r, f) + Sub(i.locked - s.miner, AcctOf(st.accounts, i.user).locked)
        && (FundedEarly(st, id) ==> i.burned == FinalBurn(s, r, f) + (i.locked - s.miner))
      case OpSettle(id, now) => FundedEarly(st, id) ==> !CanSettle(i, now) || Remaining(i) == 0
      case _ => true
  }

  /** A deal of which nothing was burned before keeps it exactly when its fee does not split. */
  lemma UnburnedKeeps(st: State, op: Op)
    requires Inv(st) && op.OpFinalize? && op.id in st.intents && st.intents[op.id].deferred && st.intents[op.id].burned == 0
    ensures Keeps(st, op) <==> !Splits(st.intents[op.id].locked)
  {
    var i := st.intents[op.id];
    SplitIsThirds(i.locked, op.retrieval, op.foundation);
    QuotientZero(WrapMul(i.locked, SHARE_BPS), 10000);
    assert GoodIntent(i);
  }

  // ---------------------------------------------------------------- without the bookkeeping

  function Plain(st: State): State { st.(stranded := map[]) }

  lemma SumsAgree(intents: map<Id, Intent>, m: map<Id, nat>, u: Addr)
    requires forall id | id in intents :: Solvent(intents[id]) && At(m, id) == 0
    ensures Sum(intents, OwedBy(u, m)) == Sum(intents, RemainingOf(u))
  {
    forall id | id in intents ensures Remaining(intents[id]) == Claim(intents[id]) { SolventRemaining(intents[id]); }
    SumCongruent(intents, OwedBy(u, m), intents, RemainingOf(u));
  }

  /** With nothing counted as stranded, the two readings of the promise are one. */
  lemma ExactIsPromised(st: State)
    ensures Exact(st) <==> Promised(Plain(st))
  {
    if forall id | id in st.intents :: Solvent(st.intents[id]) {
      forall u ensures Sum(st.intents, RemainingOf(u)) == Sum(st.intents, OwedBy(u, map[])) { SumsAgree(st.intents, map[], u); }
      if Exact(st) {
        forall u ensures AcctOf(st.accounts, u).locked == Sum(st.intents, OwedBy(u, map[])) {
          assert AcctOf(st.accounts, u).locked == Sum(st.intents, RemainingOf(u));
        }
      }
      if Promised(Plain(st)) {
        forall u ensures AcctOf(st.accounts, u).locked == Sum(st.intents, RemainingOf(u)) {
          assert AcctOf(Plain(st).accounts, u).locked == Sum(Plain(st).intents, OwedBy(u, Plain(st).stranded));
        }
      }
    }
  }

  lemma EndsPlain(st: State, id: Id, now: int)
    ensures CloseFund(Plain(st), id, now).0 == Plain(CloseFund(st, id, now).0)
    ensures id in st.intents ==> Burn(Plain(st), id).0 == Plain(Burn(st, id).0) && Refund(Plain(st), id) == Plain(Refund(st, id))
  {
  }

  lemma OpenPlain(st: State, id: Id, i: Intent)
    ensures Open(Plain(st), id, i) == Plain(Open(st, id, i))
  {
  }

  lemma ToppedUpPlain(st: State, id: Id, u: Addr, x: nat, now: int)
    requires CanReplayTopUp(st, id, u, x)
    ensures ToppedUp(Plain(st), id, u, x, now) == Plain(ToppedUp(st, id, u, x, now))
  {
  }

  lemma TopUpsPlain(st: State, op: Op)
    requires op.OpTopUp? || op.OpReplayTopUp?
    ensures Step(Plain(st), op) == Plain(Step(st, op))
  {
    if CanReplayTopUp(st, op.id, op.user, op.amount) { ToppedUpPlain(st, op.id, op.user, op.amount, op.now); }
  }

  lemma RenewedPlain(st: State, id: Id, p: nat, n: Intent, now: int)
    requires id in st.intents
    ensures Renewed(Plain(st), id, p, n, now) == Plain(Renewed(st, id, p, n, now))
  {
  }

  lemma RenewPlain(st: State, id: Id, u: Addr, d: int, p: nat, now: int)
    ensures Renew(Plain(st), id, u, d, p, now) == Plain(Renew(st, id, u, d, p, now))
  {
    assert CanRenew(Plain(st), id, u, d, p, now) == CanRenew(st, id, u, d, p, now);
    if CanRenew(st, id, u, d, p, now) {
      RenewedPlain(st, id, p, st.intents[id].(status := Finalized, active := true, expires := now + d, duration := d, updated := now), now);
    }
  }

  lemma AutoRenewPlain(st: State, id: Id, p: nat, now: int)
    ensures AutoRenew(Plain(st), id, p, now) == Plain(AutoRenew(st, id, p, now))
  {
    assert CanAutoRenew(Plain(st), id, p, now) == CanAutoRenew(st, id, p, now);
    if CanAutoRenew(st, id, p, now) {
      var i := st.intents[id];
      RenewedPlain(st, id, p, i.(expires := now + (if i.duration <= 0 then 30 * 86400 else i.duration), updated := now), now);
    }
  }

  lemma SpendsPlain(st: State, op: Op)
    requires op.OpSpendFinite? || op.OpSpendPermanent?
    ensures Step(Plain(st), op) == Plain(Step(st, op))
  {
  }

  lemma FinalizePlain(st: State, op: Op)
    requires op.OpFinalize?
    ensures Plain(Step(Plain(st), op)) == Plain(Step(st, op))
    ensures !Distributes(st, op) ==> Step(Plain(st), op) == Plain(Step(st, op))
  {
  }

  /** No step reads the bookkeeping, and only a distribution writes it. */
  lemma StepPlain(st: State, op: Op)
    ensures Plain(Step(Plain(st), op)) == Plain(Step(st, op))
    ensures !Distributes(st, op) ==> Step(Plain(st), op) == Plain(Step(st, op))
  {
    match op
    case OpFinalize(_, _, _, _) => FinalizePlain(st, op);
    case OpSpendFinite(_, _, _) => SpendsPlain(st, op);
    case OpSpendPermanent(_, _, _) => SpendsPlain(st, op);
    case OpCloseFund(id, now) => EndsPlain(st, id, now);
    case OpTerminate(id, now) => if id in st.intents { EndsPlain(Marked(st, id, Terminating(st.intents[id], now)), id, now); }
    case OpSettle(id, now) => if id in st.intents { EndsPlain(Marked(st, id, Settling(st.intents[id], now)), id, now); }
    case OpOpen(id, i) => OpenPlain(st, id, i);
    case OpTopUp(_, _, _, _) => TopUpsPlain(st, op);
    case OpReplayTopUp(_, _, _, _) => TopUpsPlain(st, op);
    case OpRenew(id, u, d, p, now) => RenewPlain(st, id, u, d, p, now);
    case OpAutoRenew(id, p, now) => AutoRenewPlain(st, id, p, now);
  }

  // ---------------------------------------------------------------- which steps keep it

  lemma SameStranded(accounts: map<Addr, Acct>, intents: map<Id, Intent>, id: Id)
    ensures Covered(accounts, intents, map[id := 0]) <==> Covered(accounts, intents, map[])
  {
    forall u ensures Sum(intents, OwedBy(u, map[id := 0])) == Sum(intents, OwedBy(u, map[])) {
      forall k | k in intents ensures OwedBy(u, map[id := 0])(k, intents[k]) == OwedBy(u, map[])(k, intents[k]) {
        assert At(map[id := 0], k) == At(map[], k);
      }
      SumCongruent(intents, OwedBy(u, map[id := 0]), intents, OwedBy(u, map[]));
    }
    if Covered(accounts, intents, map[]) {
      forall u ensures AcctOf(accounts, u).locked == Sum(intents, OwedBy(u, map[id := 0])) {
        assert AcctOf(accounts, u).locked == Sum(intents, OwedBy(u, map[]));
      }
    }
    if Covered(accounts, intents, map[id := 0]) {
      forall u ensures AcctOf(accounts, u).locked == Sum(intents, OwedBy(u, map[])) {
        assert AcctOf(accounts, u).locked == Sum(intents, OwedBy(u, map[id := 0]));
      }
    }
  }

  /** With a fund stored before, it still matches exactly when the earlier burn makes up for everything
      the distribution takes. */
  lemma EarlyFundMatches(st: State, op: Op)
    requires Inv(st) && op.OpFinalize? && FundedEarly(st, op.id)
    requires var s := SplitOf(st.intents[op.id].locked);
             st.intents[op.id].paid + st.intents[op.id].refunded + FinalBurn(s, op.retrieval, op.foundation) <= s.miner
    ensures var i := st.intents[op.id];
            var s, n := SplitOf(i.locked), FinalizedIntent(i, op.retrieval, op.foundation, op.now);
            st.funds[op.id].balance == Remaining(n) <==> i.burned == FinalBurn(s, op.retrieval, op.foundation) + (i.locked - s.miner)
  {
    var i := st.intents[op.id];
    assert GoodIntent(i) && FundMatches(i, st.funds[op.id]);
    SolventRemaining(i);
    FinalizedIsGood(i, op.retrieval, op.foundation, op.now);
    SolventRemaining(FinalizedIntent(i, op.retrieval, op.foundation, op.now));
  }

  lemma KeptDistributionIsSound(st: State, op: Op)
    requires Inv(st) && st.stranded == map[] && Sized(st, op) && Distributes(st, op) && Keeps(st, op)
    ensures Inv(Plain(Step(st, op)))
  {
    var i, end := st.intents[op.id], DistributeFee(st, op.id, op.retrieval, op.foundation, op.now);
    var n := FinalizedIntent(i, op.retrieval, op.foundation, op.now);
    DistributionCovers(st, op.id, op.retrieval, op.foundation, op.now, 0);
    assert st.stranded[op.id := 0] == map[op.id := 0];
    SameStranded(end.accounts, end.intents, op.id);
    assert GoodIntent(i);
    FinalizedIsGood(i, op.retrieval, op.foundation, op.now);
    if FundedEarly(st, op.id) { EarlyFundMatches(st, op); }
    DistributedAccountsFit(st, op.id, op.retrieval, op.foundation, op.now);
    assert FundMatches(n, FundOf(st.funds, op.id, n, op.now));
  }

  lemma OtherDistributionBreaks(st: State, op: Op)
    requires Inv(st) && st.stranded == map[] && Distributes(st, op) && !Keeps(st, op)
    ensures !Promised(Plain(Step(st, op)))
  {
    var i, end := st.intents[op.id], DistributeFee(st, op.id, op.retrieval, op.foundation, op.now);
    var n := FinalizedIntent(i, op.retrieval, op.foundation, op.now);
    assert end.intents[op.id] == n && GoodIntent(i);
    FinalizedIsGood(i, op.retrieval, op.foundation, op.now);
    if Solvent(n) {
      DistributionCovers(st, op.id, op.retrieval, op.foundation, op.now, 0);
      assert st.stranded[op.id := 0] == map[op.id := 0];
      SameStranded(end.accounts, end.intents, op.id);
      if FundedEarly(st, op.id) { EarlyFundMatches(st, op); }
    }
  }

  lemma OtherwiseSafe(st: State, op: Op)
    requires !Distributes(st, op) && (op.id in st.intents && st.intents[op.id].deferred ==> st.intents[op.id].status != Finalized)
    ensures Keeps(st, op) <==> Safe(st, op)
  {
  }

  lemma PlainStepKeeps(st: State, op: Op)
    requires Inv(st) && st.stranded == map[] && Sized(st, op)
    ensures Promised(Plain(Step(st, op))) <==> Keeps(st, op)
    ensures Keeps(st, op) ==> Inv(Plain(Step(st, op)))
  {
    if op.id in st.intents { assert GoodIntent(st.intents[op.id]); }
    if Distributes(st, op) {
      if Keeps(st, op) {
        KeptDistributionIsSound(st, op);
        InvMeansPromised(Plain(Step(st, op)));
      } else {
        OtherDistributionBreaks(st, op);
      }
    } else {
      OtherwiseSafe(st, op);
      StrandedStays(st, op);
      StepKeepsInvExactly(st, op);
    }
  }

  lemma ReadsPlain(st: State, op: Op)
    ensures Sized(Plain(st), op) <==> Sized(st, op)
    ensures Keeps(Plain(st), op) <==> Keeps(st, op)
  {
  }

  /** A step keeps the promise if and only if `Keeps` says so. */
  lemma StepKeepsExactly(st: State, op: Op)
    requires Inv(Plain(st)) && Sized(st, op)
    ensures Exact(Step(st, op)) <==> Keeps(st, op)
    ensures Keeps(st, op) ==> Inv(Plain(Step(st, op)))
  {
    StepPlain(st, op);
    ReadsPlain(st, op);
    ExactIsPromised(Step(st, op));
    PlainStepKeeps(Plain(st), op);
  }

  // ---------------------------------------------------------------- runs

  predicate RunKeeps(st: State, ops: seq<Op>)
    decreases |ops|
  {
    ops == [] || (Keeps(st, ops[0]) && RunKeeps(Step(st, ops[0]), ops[1..]))
  }

  ghost predicate ExactThroughout(st: State, ops: seq<Op>)
    decreases |ops|
  {
    Exact(st) && (ops == [] || ExactThroughout(Step(st, ops[0]), ops[1..]))
  }

  /** Locked storage equals the sum of remaining escrow, every deal is solvent and every fund matches,
      at every point of a run, if and only if every step of the run keeps it. */
  lemma {:induction false} RunKeepsExactly(st: State, ops: seq<Op>)
    requires Inv(Plain(st)) && RunSized(st, ops)
    ensures ExactThroughout(st, ops) <==> RunKeeps(st, ops)
    decreases |ops|
  {
    InvMeansPromised(Plain(st));
    ExactIsPromised(st);
    if ops != [] {
      StepKeepsExactly(st, ops[0]);
      if Keeps(st, ops[0]) { RunKeepsExactly(Step(st, ops[0]), ops[1..]); }
    }
  }
}
