/** Emission of validator rewards: the per-block release from the validator pool, its split between
    the permanent fund, the block producer and the consensus validators, and the split of one
    validator's reward between commission, own stake and delegators. */
module Emission {
  import opened Numbers
  import opened Sums
  import opened Finality
  import opened RewardIndex

  const DEFAULT_VALIDATOR_PER_BLOCK: nat := 22 * TOKEN_UNIT
  const DEFAULT_PRODUCTION_BPS: nat := 3000

  datatype Delegation = Delegation(delegator: Addr, amount: nat)

  /** A consensus validator as the distribution sees it; delegations come in map order. */
  datatype Payee = Payee(address: Addr, validator: Validator, commissionBps: nat, delegations: seq<Delegation>)

  function Total(s: seq<nat>): nat { if s == [] then 0 else s[0] + Total(s[1..]) }

  // ---------------------------------------------------------------- one validator's reward

  function SelfStake(v: Validator): nat { if v.selfStake == 0 then v.stake else v.selfStake }

  /** Commission and own-stake share, capped at the reward. */
  function ValidatorPart(amount: nat, p: Payee): (r: nat)
    ensures r <= amount
  {
    var total := WrapAdd(SelfStake(p.validator), p.validator.delegated);
    if total == 0 then amount
    else Min(SatAdd(MulDiv(amount, p.commissionBps, 10000), MulDiv(amount, SelfStake(p.validator), total)), amount)
  }

  function FloorShare(pot: nat, d: nat, staked: nat): nat { if staked > 0 then MulDiv(pot, d, staked) else 0 }

  /** The delegators' shares in the order they come up: floors, and whatever is left for the last one. */
  function Shares(pot: nat, staked: nat, ds: seq<Delegation>, paid: nat): (r: seq<nat>)
    ensures |r| == |ds|
    decreases |ds|
  {
    if ds == [] then []
    else
      var floor := FloorShare(pot, ds[0].amount, staked);
      var share := if |ds| == 1 && paid < pot then pot - paid else floor;
      [share] + Shares(pot, staked, ds[1..], paid + share)
  }

  function Floors(pot: nat, staked: nat, ds: seq<Delegation>): nat {
    if ds == [] then 0 else FloorShare(pot, ds[0].amount, staked) + Floors(pot, staked, ds[1..])
  }

  function Staked(ds: seq<Delegation>): nat { if ds == [] then 0 else ds[0].amount + Staked(ds[1..]) }

  /** The shares add up to the floors, except that a shortfall goes to the last delegator. */
  lemma {:induction false} SharesTotal(pot: nat, staked: nat, ds: seq<Delegation>, paid: nat)
    requires ds != []
    ensures paid + Total(Shares(pot, staked, ds, paid)) ==
            if paid + Floors(pot, staked, ds[..|ds| - 1]) < pot then pot else paid + Floors(pot, staked, ds)
    decreases |ds|
  {
    var shares := Shares(pot, staked, ds, paid);
    var floor := FloorShare(pot, ds[0].amount, staked);
    assert shares[1..] == Shares(pot, staked, ds[1..], paid + shares[0]);
    if |ds| == 1 {
      assert Floors(pot, staked, ds[1..]) == 0;
      assert Total(shares[1..]) == 0;
      assert ds[..0] == [];
    } else {
      SharesTotal(pot, staked, ds[1..], paid + floor);
      assert ds[..|ds| - 1][0] == ds[0] && ds[..|ds| - 1][1..] == ds[1..][..|ds| - 2];
    }
  }

  lemma ShareTimes(pot: nat, d: nat, staked: nat)
    ensures FloorShare(pot, d, staked) * staked <= pot * d
  {
    if staked > 0 {
      FloorTimes(pot * d, staked);
      MulMono(staked, FloorShare(pot, d, staked), pot * d / staked);
    }
  }

  lemma {:induction false} FloorsScaled(pot: nat, staked: nat, ds: seq<Delegation>)
    ensures Floors(pot, staked, ds) * staked <= pot * Staked(ds)
  {
    if ds != [] {
      FloorsScaled(pot, staked, ds[1..]);
      ShareTimes(pot, ds[0].amount, staked);
      StackFloors(pot, ds[0].amount, Staked(ds[1..]), FloorShare(pot, ds[0].amount, staked), Floors(pot, staked, ds[1..]), staked);
    }
  }

  /** Proportional floors of a pot never exceed it while the parts fit in the whole. */
  lemma FloorsFit(pot: nat, staked: nat, ds: seq<Delegation>)
    requires Staked(ds) <= staked
    ensures Floors(pot, staked, ds) <= pot
  {
    if staked == 0 {
      NoStakeNoFloors(pot, ds);
    } else {
      FloorsScaled(pot, staked, ds);
      MulMono(pot, Staked(ds), staked);
      WholeBound(Floors(pot, staked, ds), pot, staked);
    }
  }

  lemma FloorTimes(x: nat, d: nat)
    requires 0 < d
    ensures x / d * d <= x < (x / d + 1) * d
  {
    DivisionLaw(x, d);
  }

  /** Bounds on two shares add up to the bound on both. */
  lemma StackFloors(pot: nat, a: nat, b: nat, p: nat, q: nat, n: nat)
    requires p * n <= pot * a && q * n <= pot * b
    ensures (p + q) * n <= pot * (a + b)
  {
    assert (p + q) * n == p * n + q * n;
    assert pot * (a + b) == pot * a + pot * b;
  }

  lemma WholeBound(x: nat, y: nat, d: nat)
    requires 0 < d && x * d <= y * d
    ensures x <= y
  {
    if y < x { MulMono(d, y + 1, x); }
  }

  lemma {:induction false} NoStakeNoFloors(pot: nat, ds: seq<Delegation>)
    ensures Floors(pot, 0, ds) == 0
  {
    if ds != [] { NoStakeNoFloors(pot, ds[1..]); }
  }

  /** One validator's reward: its own part, the delegators' shares, and what no delegator took. */
  datatype Split = Split(own: nat, shares: seq<nat>, rest: nat)

  function SplitReward(amount: nat, p: Payee): Split {
    if WrapAdd(SelfStake(p.validator), p.validator.delegated) == 0 then Split(amount, seq(|p.delegations|, _ => 0), 0)
    else
      var own := ValidatorPart(amount, p);
      var pot := amount - own;
      var shares := Shares(pot, p.validator.delegated, p.delegations, 0);
      Split(own, shares, if Total(shares) < pot then pot - Total(shares) else 0)
  }

  ghost predicate Exact(amount: nat, s: Split) { s.own + Total(s.shares) + s.rest == amount }

  /** The split is exact if and only if the floors of all delegators but the last leave something,
      or all the floors together use the pot up. */
  lemma SplitIsExactWhen(amount: nat, p: Payee)
    requires WrapAdd(SelfStake(p.validator), p.validator.delegated) != 0
    ensures var pot := amount - ValidatorPart(amount, p);
            var staked, ds := p.validator.delegated, p.delegations;
            Exact(amount, SplitReward(amount, p))
            <==> ds == [] || Floors(pot, staked, ds[..|ds| - 1]) < pot || Floors(pot, staked, ds) == pot
  {
    var pot := amount - ValidatorPart(amount, p);
    var staked, ds := p.validator.delegated, p.delegations;
    if ds != [] {
      SharesTotal(pot, staked, ds, 0);
      FloorsGrow(pot, staked, ds);
    } else {
      assert Shares(pot, staked, ds, 0) == [];
    }
  }

  lemma {:induction false} FloorsGrow(pot: nat, staked: nat, ds: seq<Delegation>)
    requires ds != []
    ensures Floors(pot, staked, ds[..|ds| - 1]) <= Floors(pot, staked, ds)
  {
    if |ds| > 1 {
      FloorsGrow(pot, staked, ds[1..]);
      assert ds[..|ds| - 1][0] == ds[0] && ds[..|ds| - 1][1..] == ds[1..][..|ds| - 2];
    } else {
      assert ds[..0] == [];
    }
  }

  lemma {:induction false} ZeroesTotal(n: nat)
    ensures Total(seq(n, _ => 0)) == 0
  {
    if n > 0 {
      assert seq(n, _ => 0)[1..] == seq(n - 1, _ => 0);
      ZeroesTotal(n - 1);
    }
  }

  /** While a validator's delegated stake covers its delegations, every reward is split exactly,
      whatever the order of the delegations and however the sums of stakes wrap. */
  lemma RewardIsSplitExactly(amount: nat, p: Payee)
    requires Staked(p.delegations) <= p.validator.delegated && amount <= MAX_U64
    ensures Exact(amount, SplitReward(amount, p))
  {
    if WrapAdd(SelfStake(p.validator), p.validator.delegated) == 0 {
      ZeroesTotal(|p.delegations|);
    } else {
      var pot := amount - ValidatorPart(amount, p);
      SplitIsExactWhen(amount, p);
      FloorsFit(pot, p.validator.delegated, p.delegations);
      if p.delegations != [] { FloorsGrow(pot, p.validator.delegated, p.delegations); }
    }
  }

  /** A delegated stake that falls behind its delegations pays out tokens nobody put in. */
  lemma UnderstatedStakeOverpays(a: Addr, b: Addr)
    ensures var v := Validator("", true, 0, 0, 1);
            var p := Payee("v", v, 0, [Delegation(a, 1), Delegation(b, 1)]);
            SplitReward(1, p) == Split(0, [1, 1], 0) && !Exact(1, SplitReward(1, p))
  {
    var ds := [Delegation(a, 1), Delegation(b, 1)];
    assert MulDiv(1, 1, 1) == 1;
    assert ds[1..] == [Delegation(b, 1)] && ds[1..][1..] == [];
    assert Shares(1, 1, ds[1..], 1) == [1] + Shares(1, 1, [], 2);
    assert Shares(1, 1, ds, 0) == [1] + Shares(1, 1, ds[1..], 1) == [1, 1];
    assert Total([1]) == 1 + Total([]);
    assert [1, 1][1..] == [1];
    assert Total([1, 1]) == 2;
  }

  // ---------------------------------------------------------------- the shares, in units

  /** The stake a validator put up itself: its own stake, or all of its stake where that is not recorded apart. */
  ghost predicate PutUp(v: Validator, self: nat) { self == if v.selfStake > 0 then v.selfStake else v.stake }

  /** `q` is `amount * b / d`, rounded down. */
  ghost predicate Floor(amount: nat, b: nat, d: nat, q: nat) { d * q <= amount * b < d * (q + 1) }

  lemma FloorIs(amount: nat, b: nat, d: nat, q: nat)
    requires 0 < d && Floor(amount, b, d, q)
    ensures amount * b / d == q
  {
    assert amount * b >= 0;
    QuotientIs(amount * b, d, q);
  }

  lemma MulDivIs(amount: nat, b: nat, d: nat, q: nat)
    requires 0 < d && Floor(amount, b, d, q)
    ensures MulDiv(amount, b, d) == Min(q, MAX_U64)
  {
    FloorIs(amount, b, d, q);
    if b <= d && amount <= MAX_U64 { DivBound(amount, b, d); }
  }

  /** A validator keeps its commission and the part its own stake earned, each rounded down, capped at
      the reward. */
  lemma OwnPartIs(amount: nat, p: Payee, self: nat, commission: nat, earned: nat)
    requires PutUp(p.validator, self) && 0 < self + p.validator.delegated <= MAX_U64 && amount <= MAX_U64
    requires Floor(amount, p.commissionBps, 10000, commission)
    requires Floor(amount, self, self + p.validator.delegated, earned)
    ensures SplitReward(amount, p).own == if commission + earned < amount then commission + earned else amount
  {
    MulDivIs(amount, p.commissionBps, 10000, commission);
    MulDivIs(amount, self, self + p.validator.delegated, earned);
  }

  /** Without any stake the validator keeps the whole reward. */
  lemma StakelessKeepsAll(amount: nat, p: Payee)
    requires p.validator.selfStake == p.validator.stake == p.validator.delegated == 0
    ensures SplitReward(amount, p).own == amount
  {
  }

  /** Every delegator but the last gets what is left in proportion to its delegation, rounded down; the
      last gets whatever the others left, or its proportion if they left nothing. */
  lemma DelegatorShareIs(amount: nat, p: Payee, self: nat, i: nat, f: nat)
    requires PutUp(p.validator, self) && 0 < p.validator.delegated && self + p.validator.delegated <= MAX_U64
    requires i < |p.delegations| && f <= MAX_U64
    requires Floor(amount - SplitReward(amount, p).own, p.delegations[i].amount, p.validator.delegated, f)
    ensures var s := SplitReward(amount, p);
            && |s.shares| == |p.delegations|
            && var left := amount - s.own - Total(s.shares[..i]);
            s.shares[i] == if i == |p.delegations| - 1 && left > 0 then left else f
  {
    var s := SplitReward(amount, p);
    MulDivIs(amount - s.own, p.delegations[i].amount, p.validator.delegated, f);
    ShareAt(amount - s.own, p.validator.delegated, p.delegations, 0, i);
  }

  lemma {:induction false} ShareAt(pot: nat, staked: nat, ds: seq<Delegation>, paid: nat, i: nat)
    requires i < |ds|
    ensures var shares := Shares(pot, staked, ds, paid);
            var before := paid + Total(shares[..i]);
            shares[i] == if i == |ds| - 1 && before < pot then pot - before else FloorShare(pot, ds[i].amount, staked)
    decreases |ds|
  {
    var shares := Shares(pot, staked, ds, paid);
    if i == 0 {
      assert shares[..0] == [];
    } else {
      ShareAt(pot, staked, ds[1..], paid + shares[0], i - 1);
      assert shares[..i][0] == shares[0] && shares[..i][1..] == shares[1..][..i - 1];
    }
  }

  // ---------------------------------------------------------------- across validators

  function TotalPower(ps: seq<Payee>): nat { if ps == [] then 0 else Power(ps[0].validator) + TotalPower(ps[1..]) }

  function RewardOf(amount: nat, p: Payee, total: nat): nat
    requires total > 0
  {
    WrapMul(amount, Power(p.validator)) / total
  }

  function Rewards(amount: nat, ps: seq<Payee>, total: nat): nat
    requires total > 0
  {
    if ps == [] then 0 else RewardOf(amount, ps[0], total) + Rewards(amount, ps[1..], total)
  }

  /** Even with `amount * power` wrapping at 64 bits, the rewards never exceed the amount. */
  lemma {:induction false} RewardsFit(amount: nat, ps: seq<Payee>, total: nat)
    requires total > 0
    ensures Rewards(amount, ps, total) * total <= amount * TotalPower(ps)
    ensures TotalPower(ps) <= total ==> Rewards(amount, ps, total) <= amount
  {
    if ps != [] {
      RewardsFit(amount, ps[1..], total);
      var w := Power(ps[0].validator);
      FloorTimes(WrapMul(amount, w), total);
      StackFloors(amount, w, TotalPower(ps[1..]), RewardOf(amount, ps[0], total), Rewards(amount, ps[1..], total), total);
    }
    if TotalPower(ps) <= total {
      MulMono(amount, TotalPower(ps), total);
      WholeBound(Rewards(amount, ps, total), amount, total);
    }
  }

  /** Without wrapping, rounding loses less than one unit per validator. */
  lemma {:induction false} RoundingIsSmall(amount: nat, ps: seq<Payee>, total: nat)
    requires total > 0 && forall p | p in ps :: amount * Power(p.validator) < TWO64
    ensures amount * TotalPower(ps) <= (Rewards(amount, ps, total) + |ps|) * total
  {
    if ps != [] {
      RoundingIsSmall(amount, ps[1..], total);
      var w := Power(ps[0].validator);
      FloorTimes(amount * w, total);
      StackCeilings(amount, w, TotalPower(ps[1..]), RewardOf(amount, ps[0], total) + 1,
                    Rewards(amount, ps[1..], total) + |ps[1..]|, total);
    }
  }

  /** A validator's reward is the amount in proportion to its power: self and delegated stake, at least one. */
  lemma RewardIsByPower(amount: nat, p: Payee, total: nat, self: nat, r: nat)
    requires PutUp(p.validator, self) && self + p.validator.delegated <= MAX_U64 && 0 < total
    requires var w := if self + p.validator.delegated > 0 then self + p.validator.delegated else 1;
             amount * w < TWO64 && Floor(amount, w, total, r)
    ensures RewardOf(amount, p, total) == r
  {
    PowerIs(p.validator);
    FloorIs(amount, Power(p.validator), total, r);
  }

  lemma StackCeilings(pot: nat, a: nat, b: nat, p: nat, q: nat, n: nat)
    requires pot * a <= p * n && pot * b <= q * n
    ensures pot * (a + b) <= (p + q) * n
  {
    assert (p + q) * n == p * n + q * n;
    assert pot * (a + b) == pot * a + pot * b;
  }

  // ---------------------------------------------------------------- the store

  function HeldAt(a: Addr, x: nat): int { x }

  function Credited(m: map<Addr, nat>, a: Addr, x: nat): map<Addr, nat> {
    if x == 0 || a == "" then m else m[a := (if a in m then m[a] else 0) + x]
  }

  lemma CreditedSum(m: map<Addr, nat>, a: Addr, x: nat)
    requires a != ""
    ensures Sum(Credited(m, a, x), HeldAt) == Sum(m, HeldAt) + x
  {
    if x > 0 { SumPut(m, HeldAt, a, Credited(m, a, x)[a]); }
  }

  /** Who receives what: the delegators' shares, then a whole split, then every validator's split. */
  function VestShares(m: map<Addr, nat>, ds: seq<Delegation>, shares: seq<nat>): map<Addr, nat>
    requires |ds| == |shares|
    decreases |ds|
  {
    if ds == [] then m else VestShares(Credited(m, ds[0].delegator, shares[0]), ds[1..], shares[1..])
  }

  function VestSplit(m: map<Addr, nat>, p: Payee, s: Split): map<Addr, nat>
    requires |p.delegations| == |s.shares|
  {
    Credited(VestShares(Credited(m, p.address, s.own), p.delegations, s.shares), p.address, s.rest)
  }

  function VestRewards(m: map<Addr, nat>, ps: seq<Payee>, amount: nat, total: nat): map<Addr, nat>
    requires total > 0
    decreases |ps|
  {
    if ps == [] then m
    else
      var reward := RewardOf(amount, ps[0], total);
      VestRewards(if reward == 0 then m else VestSplit(m, ps[0], SplitReward(reward, ps[0])), ps[1..], amount, total)
  }

  lemma {:induction false} NothingToVest(m: map<Addr, nat>, ds: seq<Delegation>, shares: seq<nat>)
    requires |ds| == |shares| && forall k | 0 <= k < |shares| :: shares[k] == 0
    ensures VestShares(m, ds, shares) == m
    decreases |ds|
  {
    if ds != [] { NothingToVest(m, ds[1..], shares[1..]); }
  }

  lemma {:induction false} VestSharesSum(m: map<Addr, nat>, ds: seq<Delegation>, shares: seq<nat>)
    requires |ds| == |shares| && forall d | d in ds :: d.delegator != ""
    ensures Sum(VestShares(m, ds, shares), HeldAt) == Sum(m, HeldAt) + Total(shares)
    decreases |ds|
  {
    if ds != [] {
      CreditedSum(m, ds[0].delegator, shares[0]);
      VestSharesSum(Credited(m, ds[0].delegator, shares[0]), ds[1..], shares[1..]);
    }
  }

  /** Vesting a reward's split vests exactly the reward. */
  lemma SplitIsConserved(m: map<Addr, nat>, p: Payee, amount: nat)
    requires WellFormed(p) && amount <= MAX_U64
    ensures Sum(VestSplit(m, p, SplitReward(amount, p)), HeldAt) == Sum(m, HeldAt) + amount
  {
    var s := SplitReward(amount, p);
    var first := Credited(m, p.address, s.own);
    RewardIsSplitExactly(amount, p);
    CreditedSum(m, p.address, s.own);
    VestSharesSum(first, p.delegations, s.shares);
    CreditedSum(VestShares(first, p.delegations, s.shares), p.address, s.rest);
  }

  /** Addresses are not empty and each validator's delegated stake covers its delegations. */
  ghost predicate WellFormed(p: Payee) {
    && p.address != "" && Staked(p.delegations) <= p.validator.delegated
    && forall d | d in p.delegations :: d.delegator != ""
  }

  class EmissionLedger {
    var pool: nat
    var fund: nat
    var released: nat
    var balances: map<Addr, nat>
    var vested: map<Addr, nat>

    ghost function Vested(): int
      reads this
    {
      Sum(vested, HeldAt)
    }

    /** Every token the emission can touch. */
    ghost function Tokens(): int
      reads this
    {
      pool + fund + Sum(balances, HeldAt) + Vested()
    }

    constructor (pool: nat)
      ensures Tokens() == pool == this.pool && vested == map[] && balances == map[]
    {
      this.pool, fund, released, balances, vested := pool, 0, 0, map[], map[];
      new;
      SumEmpty(balances, HeldAt);
      SumEmpty(vested, HeldAt);
    }

    method Vest(a: Addr, amount: nat)
      modifies this`vested
      ensures vested == Credited(old(vested), a, amount)
    {
      if amount == 0 || a == "" { return; }
      vested := vested[a := (if a in vested then vested[a] else 0) + amount];
    }

    /** Vests the delegators' shares one after the other and returns what they took. */
    method PayDelegators(pot: nat, staked: nat, ds: seq<Delegation>) returns (paid: nat)
      modifies this`vested
      ensures paid == Total(Shares(pot, staked, ds, 0))
      ensures vested == VestShares(old(vested), ds, Shares(pot, staked, ds, 0))
    {
      paid := 0;
      var i := 0;
      ghost var all := Shares(pot, staked, ds, 0);
      assert ds[0..] == ds;
      while i < |ds|
        invariant 0 <= i <= |ds|
        invariant paid + Total(Shares(pot, staked, ds[i..], paid)) == Total(all)
        invariant VestShares(vested, ds[i..], Shares(pot, staked, ds[i..], paid)) == VestShares(old(vested), ds, all)
      {
        var d := ds[i];
        assert ds[i..][0] == d && ds[i..][1..] == ds[i + 1..];
        var share := if staked > 0 then MulDiv(pot, d.amount, staked) else 0;
        if i == |ds| - 1 && paid < pot { share := pot - paid; }
        assert Shares(pot, staked, ds[i..], paid)[1..] == Shares(pot, staked, ds[i + 1..], paid + share);
        Vest(d.delegator, share);
        paid := paid + share;
        i := i + 1;
      }
      assert Shares(pot, staked, ds[i..], paid) == [];
    }

    /** Splits one validator's reward between its own part, its delegators and a remainder. */
    method DistributeReward(p: Payee, amount: nat)
      requires WellFormed(p) && amount <= MAX_U64
      modifies this`vested
      ensures vested == VestSplit(old(vested), p, SplitReward(amount, p))
      ensures Vested() == old(Vested()) + amount
    {
      SplitIsConserved(vested, p, amount);
      var self := SelfStake(p.validator);
      var total := WrapAdd(self, p.validator.delegated);
      if total == 0 {
        NothingToVest(Credited(vested, p.address, amount), p.delegations, seq(|p.delegations|, _ => 0));
        Vest(p.address, amount);
        return;
      }
      var own := SatAdd(MulDiv(amount, p.commissionBps, 10000), MulDiv(amount, self, total));
      if own > amount { own := amount; }
      var pot := amount - own;
      Vest(p.address, own);
      var paid := PayDelegators(pot, p.validator.delegated, p.delegations);
      if paid < pot {
        Vest(p.address, pot - paid);
      }
    }

    /** Spreads an amount over the validators by power and carries the rounding back to the pool. */
    method DistributePool(ps: seq<Payee>, amount: nat) returns (distributed: nat)
      requires (forall p | p in ps :: WellFormed(p)) && amount <= MAX_U64
      requires 0 < TotalPower(ps) <= MAX_U64 && pool + amount <= MAX_U64
      modifies this`vested, this`pool
      ensures distributed == (if amount == 0 then 0 else Rewards(amount, ps, TotalPower(ps))) <= amount
      ensures vested == if amount == 0 then old(vested) else VestRewards(old(vested), ps, amount, TotalPower(ps))
      ensures Vested() == old(Vested()) + distributed && pool == old(pool) + (amount - distributed)
    {
      distributed := 0;
      if amount == 0 { return; }
      var total := SumPowers(ps);
      RewardsFit(amount, ps, total);
      var i := 0;
      assert ps[0..] == ps;
      while i < |ps|
        invariant 0 <= i <= |ps| && pool == old(pool)
        invariant distributed + Rewards(amount, ps[i..], total) == Rewards(amount, ps, total)
        invariant VestRewards(vested, ps[i..], amount, total) == VestRewards(old(vested), ps, amount, total)
        invariant Vested() == old(Vested()) + distributed
      {
        assert ps[i..][0] == ps[i] && ps[i..][1..] == ps[i + 1..];
        var reward := WrapMul(amount, Power(ps[i].validator)) / total;
        if reward > 0 {
          distributed := SatAdd(distributed, reward);
          DistributeReward(ps[i], reward);
        }
        i := i + 1;
      }
      assert ps[i..] == [];
      if distributed < amount {
        pool := SatAdd(pool, amount - distributed);
      }
    }

    method SumPowers(ps: seq<Payee>) returns (total: nat)
      requires TotalPower(ps) <= MAX_U64
      ensures total == TotalPower(ps)
    {
      total := 0;
      var i := 0;
      assert ps[0..] == ps;
      while i < |ps|
        invariant 0 <= i <= |ps| && total + TotalPower(ps[i..]) == TotalPower(ps)
      {
        assert ps[i..][0] == ps[i] && ps[i..][1..] == ps[i + 1..];
        total := SatAdd(total, Power(ps[i].validator));
        i := i + 1;
      }
      assert ps[i..] == [];
    }

    /** One block's validator release. What leaves the pool is the fund's share, the producer's
        credit and the vested rewards; rounding goes back, and no token appears or disappears. */
    method ReleasePerBlock(ps: seq<Payee>, producer: Addr, perBlock: nat, injectionBps: nat, productionBps: nat)
      returns (fundShare: nat, credit: nat, staking: nat)
      requires (forall p | p in ps :: WellFormed(p)) && TotalPower(ps) <= MAX_U64
      requires pool <= MAX_U64 && fund + pool <= MAX_U64
      modifies this
      ensures Tokens() == old(Tokens())
      ensures old(pool) - pool == fundShare + credit + staking
      ensures fund == old(fund) + fundShare && Vested() == old(Vested()) + staking
      ensures balances == Credited(old(balances), producer, credit)
      ensures old(pool) > 0 && TotalPower(ps) > 0 ==>
                var plan := PlanBlock(old(pool), old(fund), producer, perBlock, injectionBps, productionBps);
                && fundShare == plan.fundShare && credit == plan.credit && released == SatAdd(old(released), plan.release)
                && vested == if plan.staking == 0 then old(vested)
                             else VestRewards(old(vested), ps, plan.staking, TotalPower(ps))
      ensures old(pool) == 0 || TotalPower(ps) == 0 ==> vested == old(vested) && fundShare == credit == 0
    {
      fundShare, credit, staking := 0, 0, 0;
      if pool == 0 || TotalPower(ps) == 0 { return; }
      var stakingReward;
      fundShare, credit, stakingReward := TakeRelease(producer, perBlock, injectionBps, productionBps);
      staking := DistributePool(ps, stakingReward);
    }

    /** Takes the release out of the pool, parks the fund's share and credits the producer. */
    method TakeRelease(producer: Addr, perBlock: nat, injectionBps: nat, productionBps: nat)
      returns (fundShare: nat, credit: nat, stakingReward: nat)
      requires pool <= MAX_U64 && fund + pool <= MAX_U64
      modifies this`pool, this`fund, this`released, this`balances
      ensures var plan := PlanBlock(old(pool), old(fund), producer, perBlock, injectionBps, productionBps);
              && fundShare == plan.fundShare && credit == plan.credit && stakingReward == plan.staking
              && pool == old(pool) - plan.release && fund == old(fund) + plan.fundShare
              && released == SatAdd(old(released), plan.release)
      ensures balances == Credited(old(balances), producer, credit)
      ensures Sum(balances, HeldAt) == Sum(old(balances), HeldAt) + credit
    {
      var release := if perBlock == 0 then DEFAULT_VALIDATOR_PER_BLOCK else perBlock;
      if release > pool { release := pool; }
      fundShare := Injection(release, injectionBps, fund);
      var payout := release - fundShare;
      pool := pool - release;
      fund := SatAdd(fund, fundShare);
      released := SatAdd(released, release);
      var blockReward := BlockReward(payout, productionBps);
      stakingReward := payout - blockReward;
      credit := CreditProducer(producer, blockReward);
      if blockReward > 0 && producer == "" { stakingReward := SatAdd(stakingReward, blockReward); }
    }

    /** Credits the producer, if there is one, and says how much. */
    method CreditProducer(producer: Addr, amount: nat) returns (credit: nat)
      modifies this`balances
      ensures credit == if producer == "" then 0 else amount
      ensures balances == Credited(old(balances), producer, credit) && Sum(balances, HeldAt) == Sum(old(balances), HeldAt) + credit
    {
      if amount == 0 || producer == "" { return 0; }
      CreditedSum(balances, producer, amount);
      balances := balances[producer := (if producer in balances then balances[producer] else 0) + amount];
      credit := amount;
    }
  }

  /** How one block's release is divided before the validators are paid. */
  datatype Plan = Plan(release: nat, fundShare: nat, credit: nat, staking: nat)

  function PlanBlock(pool: nat, fund: nat, producer: Addr, perBlock: nat, injectionBps: nat, productionBps: nat): (p: Plan)
    ensures p.fundShare + p.credit + p.staking == p.release <= pool
  {
    var release := Min(if perBlock == 0 then DEFAULT_VALIDATOR_PER_BLOCK else perBlock, pool);
    var fundShare := Injection(release, injectionBps, fund);
    var credit := if producer != "" then BlockReward(release - fundShare, productionBps) else 0;
    Plan(release, fundShare, credit, release - fundShare - credit)
  }

  function BlockReward(payout: nat, productionBps: nat): (r: nat)
    ensures r <= payout
  {
    var bps := Min(if productionBps == 0 then DEFAULT_PRODUCTION_BPS else productionBps, 10000);
    DivBound(payout, bps, 10000);
    DivMono(WrapMul(payout, bps), payout * bps, 10000);
    WrapMul(payout, bps) / 10000
  }

  /** One block's release in units: the configured amount or 22 tokens, as far as the pool goes; of it the
      fund's part (`x`, under the lifetime cap), and of the rest the producer's part (`y`, 30% unless
      configured), which goes to the validators when there is no producer. Products wrap. */
  lemma PlanIs(pool: nat, fund: nat, producer: Addr, perBlock: nat, injectionBps: nat, productionBps: nat, gross: nat, x: nat, toFund: nat, y: nat)
    requires gross == Min(if perBlock > 0 then perBlock else 2_200_000_000, pool)
    requires 10000 * x <= gross * Min(injectionBps, 10000) % TWO64 < 10000 * (x + 1)
    requires toFund == if fund >= 200_000_000_000_000_000 then 0 else Min(x, 200_000_000_000_000_000 - fund)
    requires toFund <= gross
    requires 10000 * y <= (gross - toFund) * Min(if productionBps > 0 then productionBps else 3000, 10000) % TWO64 < 10000 * (y + 1)
    ensures y <= gross - toFund
    ensures PlanBlock(pool, fund, producer, perBlock, injectionBps, productionBps)
            == if producer == "" then Plan(gross, toFund, 0, gross - toFund) else Plan(gross, toFund, y, gross - toFund - y)
  {
    InjectionIs(gross, injectionBps, fund, x);
    BlockRewardIs(gross - toFund, productionBps, y);
  }

  lemma BlockRewardIs(payout: nat, productionBps: nat, y: nat)
    requires 10000 * y <= payout * Min(if productionBps > 0 then productionBps else 3000, 10000) % TWO64 < 10000 * (y + 1)
    ensures BlockReward(payout, productionBps) == y
  {
    QuotientIs(payout * Min(if productionBps > 0 then productionBps else 3000, 10000) % TWO64, 10000, y);
  }
}
