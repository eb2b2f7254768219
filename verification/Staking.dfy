/** Delegation, unbonding and double-vote slashing. */
module Staking {
  import opened Numbers
  import opened Sums
  import opened Finality

  const MIN_DELEGATION: nat := 1000 * TOKEN_UNIT
  const UNBONDING_SECONDS: int := 7 * 86400

  datatype Account = Account(balance: nat, lockedStake: nat, unbonding: nat)
  datatype Staker = Staker(active: bool, delegated: nat, stake: nat, slashed: nat)
  datatype Entry = Entry(delegator: Addr, amount: nat, matures: int)

  /** The formatted id `delegator:validator:now:sequence` of an unbonding entry. */
  datatype Uid = Uid(delegator: Addr, validator: Addr, now: int, number: nat)

  type Key = (Addr, Addr)

  datatype State = State(accounts: map<Addr, Account>, stakers: map<Addr, Staker>, delegations: map<Key, nat>,
                         entries: map<Uid, Entry>, fund: nat, evidence: set<string>)

  function AccountOf(accounts: map<Addr, Account>, a: Addr): Account {
    if a in accounts then accounts[a] else Account(0, 0, 0)
  }

  function StakerOf(stakers: map<Addr, Staker>, v: Addr): Staker { if v in stakers then stakers[v] else Staker(false, 0, 0, 0) }

  // ---------------------------------------------------------------- the steps

  predicate CanDelegate(st: State, d: Addr, v: Addr, amount: nat) {
    && d != "" && v != "" && amount >= MIN_DELEGATION
    && v in st.stakers && st.stakers[v].active && amount <= AccountOf(st.accounts, d).balance
  }

  function Delegate(st: State, d: Addr, v: Addr, amount: nat): State {
    if !CanDelegate(st, d, v, amount) then st
    else
      var acc := AccountOf(st.accounts, d);
      var before := if (d, v) in st.delegations then st.delegations[(d, v)] else 0;
      st.(accounts := st.accounts[d := acc.(balance := acc.balance - amount)],
          delegations := st.delegations[(d, v) := before + amount],
          stakers := st.stakers[v := st.stakers[v].(delegated := st.stakers[v].delegated + amount)])
  }

  predicate CanUndelegate(st: State, d: Addr, v: Addr, amount: nat) {
    d != "" && v != "" && amount > 0 && (d, v) in st.delegations && amount <= st.delegations[(d, v)]
  }

  function NextUid(st: State, d: Addr, v: Addr, now: int): Uid { Uid(d, v, now, |st.entries|) }

  function Taken(m: map<Key, nat>, k: Key, amount: nat): map<Key, nat>
    requires k in m && amount <= m[k]
  {
    if m[k] == amount then m - {k} else m[k := m[k] - amount]
  }

  function Undelegate(st: State, d: Addr, v: Addr, amount: nat, now: int): State {
    if !CanUndelegate(st, d, v, amount) then st
    else
      var acc := AccountOf(st.accounts, d);
      var s := StakerOf(st.stakers, v);
      st.(accounts := st.accounts[d := acc.(unbonding := acc.unbonding + amount)],
          delegations := Taken(st.delegations, (d, v), amount),
          stakers := st.stakers[v := s.(delegated := s.delegated - Min(amount, s.delegated))],
          entries := st.entries[NextUid(st, d, v, now) := Entry(d, amount, now + UNBONDING_SECONDS)])
  }

  /** Pays out one matured entry. */
  function Mature(st: State, u: Uid, now: int): State {
    if u !in st.entries || now < st.entries[u].matures then st
    else
      var e := st.entries[u];
      var acc := AccountOf(st.accounts, e.delegator);
      st.(accounts := st.accounts[e.delegator := acc.(unbonding := Sub(acc.unbonding, e.amount), balance := acc.balance + e.amount)],
          entries := st.entries - {u})
  }

  /** What a delegation loses when `slash` out of `self` is taken from its validator. */
  function CutOf(amount: nat, slash: nat, self: nat): (c: nat)
    ensures c <= amount
  {
    Min(MulDiv(amount, slash, self), amount)
  }

  /** How much of a delegation a slash takes. */
  type Rate = nat -> nat

  ghost predicate Fair(rate: Rate) { forall x: nat :: rate(x) <= x }

  function RateOf(slash: nat, self: nat): (r: Rate)
    ensures Fair(r)
  {
    (x: nat) => CutOf(x, slash, self)
  }

  ghost function CutAt(v: Addr, rate: Rate): (Key, nat) -> int
  {
    (k: Key, x: nat) => if k.1 == v then rate(x) else 0
  }

  /** The delegations after a slash of `v` has reached the keys in `done`. */
  ghost function CutOn(m: map<Key, nat>, v: Addr, rate: Rate, done: set<Key>): map<Key, nat>
  {
    map k | k in m && (k in done && k.1 == v ==> rate(m[k]) == 0 || rate(m[k]) < m[k]) ::
      if k in done && k.1 == v then Sub(m[k], rate(m[k])) else m[k]
  }

  /** A slashed delegator's unbonding counter falls with the cut when it is large enough. */
  function Docked(acc: Account, cut: nat): Account {
    if acc.unbonding >= cut then acc.(unbonding := acc.unbonding - cut) else acc
  }

  ghost predicate Docks(m: map<Key, nat>, v: Addr, rate: Rate, done: set<Key>, a: Addr) {
    (a, v) in m && (a, v) in done && rate(m[(a, v)]) > 0
  }

  ghost function Holders(m: map<Key, nat>, v: Addr, rate: Rate, done: set<Key>): set<Addr> {
    set k | k in m && k in done && k.1 == v && rate(m[k]) > 0 :: k.0
  }

  ghost function DockOn(accounts: map<Addr, Account>, m: map<Key, nat>, v: Addr, rate: Rate, done: set<Key>): map<Addr, Account> {
    map a | a in accounts.Keys + Holders(m, v, rate, done) ::
      if Docks(m, v, rate, done, a) then Docked(AccountOf(accounts, a), rate(m[(a, v)])) else AccountOf(accounts, a)
  }

  /** Closing a slash of `v` once its stake and its delegations have been cut. */
  function Closed(st: State, id: string, v: Addr, slash: nat, accounts: map<Addr, Account>, delegations: map<Key, nat>, cuts: nat): State
    requires v in st.stakers && slash <= AccountOf(st.accounts, v).lockedStake
  {
    var s, self := st.stakers[v], AccountOf(st.accounts, v).lockedStake;
    State(accounts, st.stakers[v := Staker(s.active && self > slash, Sub(s.delegated, cuts), self - slash, s.slashed + slash + cuts)],
          delegations, st.entries, st.fund + slash + cuts, st.evidence + {id})
  }

  function OwnerCharged(accounts: map<Addr, Account>, v: Addr, slash: nat): map<Addr, Account>
    requires slash <= AccountOf(accounts, v).lockedStake
  {
    accounts[v := AccountOf(accounts, v).(lockedStake := AccountOf(accounts, v).lockedStake - slash)]
  }

  /** Taking `slash` from the stake of `v`, and from each delegation to it what `rate` says. */
  ghost function Slashed(st: State, id: string, v: Addr, slash: nat, rate: Rate): State
    requires v in st.stakers && slash <= AccountOf(st.accounts, v).lockedStake
  {
    var hit := st.stakers[v].delegated > 0 && AccountOf(st.accounts, v).lockedStake > 0;
    Closed(st, id, v, slash, AccountsAfter(st.accounts, st.delegations, v, slash, rate, hit),
           DelegationsAfter(st.delegations, v, rate, hit), CutsAfter(st.delegations, v, rate, hit))
  }

  ghost function AccountsAfter(accounts: map<Addr, Account>, m: map<Key, nat>, v: Addr, slash: nat, rate: Rate, hit: bool): map<Addr, Account>
    requires slash <= AccountOf(accounts, v).lockedStake
  {
    var owner := OwnerCharged(accounts, v, slash);
    if hit then DockOn(owner, m, v, rate, m.Keys) else owner
  }

  ghost function DelegationsAfter(m: map<Key, nat>, v: Addr, rate: Rate, hit: bool): map<Key, nat> {
    if hit then CutOn(m, v, rate, m.Keys) else m
  }

  ghost function CutsAfter(m: map<Key, nat>, v: Addr, rate: Rate, hit: bool): nat { if hit then TotalCut(m, v, rate) else 0 }

  /** Double-vote evidence against `v`: half its stake and the same fraction of every delegation go to the fund. */
  ghost function Slash(st: State, id: string, v: Addr): State {
    if id in st.evidence || v !in st.stakers then st
    else
      var self := AccountOf(st.accounts, v).lockedStake;
      Slashed(st, id, v, DoubleVoteSlash(self), RateOf(DoubleVoteSlash(self), self))
  }

  ghost function TotalCut(m: map<Key, nat>, v: Addr, rate: Rate): nat
  {
    CutsNonNegative(m, v, rate);
    Sum(m, CutAt(v, rate))
  }

  lemma CutsNonNegative(m: map<Key, nat>, v: Addr, rate: Rate)
    ensures 0 <= Sum(m, CutAt(v, rate))
  {
    SumNonNegative(m, CutAt(v, rate));
  }

  // ---------------------------------------------------------------- the ledger

  function HeldAt(a: Addr, acc: Account): int { acc.balance + acc.lockedStake }
  function DelegatedAt(k: Key, x: nat): int { x }
  function EntryAt(u: Uid, e: Entry): int { e.amount }
  ghost function ToValidator(v: Addr): (Key, nat) -> int { (k: Key, x: nat) => if k.1 == v then x else 0 }

  /** Every token in the staking system; unbonding entries are the liability, not the counters. */
  ghost function Tokens(st: State): int {
    Sum(st.accounts, HeldAt) + Sum(st.delegations, DelegatedAt) + Sum(st.entries, EntryAt) + st.fund
  }

  /** Delegations are positive and belong to known accounts. */
  ghost predicate Standing(m: map<Key, nat>, accounts: map<Addr, Account>) {
    forall k | k in m :: m[k] > 0 && k.0 in accounts
  }

  ghost predicate Inv(st: State) {
    && (forall v :: StakerOf(st.stakers, v).delegated == Sum(st.delegations, ToValidator(v)))
    && Standing(st.delegations, st.accounts)
    && (forall u | u in st.entries :: st.entries[u].amount > 0)
  }

  lemma PutDelegation(m: map<Key, nat>, k: Key, x: nat, v: Addr)
    ensures Sum(m[k := x], ToValidator(v)) == Sum(m, ToValidator(v)) + (if k.1 == v then x - (if k in m then m[k] else 0) else 0)
    ensures Sum(m[k := x], DelegatedAt) == Sum(m, DelegatedAt) + x - (if k in m then m[k] else 0)
  {
    SumPut(m, ToValidator(v), k, x);
    SumPut(m, DelegatedAt, k, x);
  }

  lemma DropDelegation(m: map<Key, nat>, k: Key, v: Addr)
    requires k in m
    ensures Sum(m - {k}, ToValidator(v)) == Sum(m, ToValidator(v)) - (if k.1 == v then m[k] else 0)
    ensures Sum(m - {k}, DelegatedAt) == Sum(m, DelegatedAt) - m[k]
  {
    SumPick(m, ToValidator(v), k);
    SumPick(m, DelegatedAt, k);
  }

  lemma DelegateKeepsInv(st: State, d: Addr, v: Addr, amount: nat)
    requires Inv(st)
    ensures Inv(Delegate(st, d, v, amount)) && Tokens(Delegate(st, d, v, amount)) == Tokens(st)
  {
    if CanDelegate(st, d, v, amount) {
      var end := Delegate(st, d, v, amount);
      SumPut(st.accounts, HeldAt, d, end.accounts[d]);
      SumPut(st.delegations, DelegatedAt, (d, v), end.delegations[(d, v)]);
      forall w ensures StakerOf(end.stakers, w).delegated == Sum(end.delegations, ToValidator(w)) {
        PutDelegation(st.delegations, (d, v), end.delegations[(d, v)], w);
        assert StakerOf(st.stakers, w).delegated == Sum(st.delegations, ToValidator(w));
      }
    }
  }

  lemma DelegationWithinStake(st: State, k: Key)
    requires Inv(st) && k in st.delegations
    ensures st.delegations[k] <= StakerOf(st.stakers, k.1).delegated
  {
    SumCovers(st.delegations, ToValidator(k.1), k);
    assert StakerOf(st.stakers, k.1).delegated == Sum(st.delegations, ToValidator(k.1));
  }

  lemma TakeDelegation(m: map<Key, nat>, k: Key, amount: nat, w: Addr)
    requires k in m && amount <= m[k]
    ensures Sum(Taken(m, k, amount), ToValidator(w)) == Sum(m, ToValidator(w)) - (if k.1 == w then amount else 0)
    ensures Sum(Taken(m, k, amount), DelegatedAt) == Sum(m, DelegatedAt) - amount
  {
    DropDelegation(m, k, w);
    PutDelegation(m, k, m[k] - amount, w);
  }

  lemma UndelegateKeepsInv(st: State, d: Addr, v: Addr, amount: nat, now: int)
    requires Inv(st) && CanUndelegate(st, d, v, amount)
    ensures Inv(Undelegate(st, d, v, amount, now))
  {
    var end := Undelegate(st, d, v, amount, now);
    DelegationWithinStake(st, (d, v));
    forall w ensures StakerOf(end.stakers, w).delegated == Sum(end.delegations, ToValidator(w)) {
      TakeDelegation(st.delegations, (d, v), amount, w);
      assert StakerOf(st.stakers, w).delegated == Sum(st.delegations, ToValidator(w));
    }
  }

  /** Undelegating keeps every token exactly when its entry id is new; a reused id overwrites the
      tokens of the entry it replaces. */
  lemma UndelegateConservesExactly(st: State, d: Addr, v: Addr, amount: nat, now: int)
    requires Inv(st) && CanUndelegate(st, d, v, amount)
    ensures Inv(Undelegate(st, d, v, amount, now))
    ensures Tokens(Undelegate(st, d, v, amount, now)) == Tokens(st) <==> NextUid(st, d, v, now) !in st.entries
  {
    var end, u := Undelegate(st, d, v, amount, now), NextUid(st, d, v, now);
    UndelegateKeepsInv(st, d, v, amount, now);
    SumPut(st.accounts, HeldAt, d, end.accounts[d]);
    SumPut(st.entries, EntryAt, u, end.entries[u]);
    TakeDelegation(st.delegations, (d, v), amount, v);
  }

  lemma MatureKeepsInv(st: State, u: Uid, now: int)
    requires Inv(st)
    ensures Inv(Mature(st, u, now)) && Tokens(Mature(st, u, now)) == Tokens(st)
  {
    if u in st.entries && now >= st.entries[u].matures {
      var end := Mature(st, u, now);
      var d := st.entries[u].delegator;
      SumPut(st.accounts, HeldAt, d, end.accounts[d]);
      SumPick(st.entries, EntryAt, u);
      forall w ensures StakerOf(end.stakers, w).delegated == Sum(end.delegations, ToValidator(w)) {
        assert StakerOf(st.stakers, w).delegated == Sum(st.delegations, ToValidator(w));
      }
    }
  }

  // ---------------------------------------------------------------- slashing

  lemma CutWithout(m: map<Key, nat>, v: Addr, rate: Rate, k: Key)
    requires k in m
    ensures CutOn(m, v, rate, m.Keys) - {k} == CutOn(m - {k}, v, rate, (m - {k}).Keys)
  {
  }

  /** What a slash takes from the delegations is what their total and the validator's share of it lose. */
  lemma {:induction false} CutsAddUp(m: map<Key, nat>, v: Addr, rate: Rate, w: Addr)
    requires Fair(rate)
    ensures Sum(CutOn(m, v, rate, m.Keys), DelegatedAt) == Sum(m, DelegatedAt) - TotalCut(m, v, rate)
    ensures Sum(CutOn(m, v, rate, m.Keys), ToValidator(w))
            == Sum(m, ToValidator(w)) - (if w == v then TotalCut(m, v, rate) else 0)
    decreases m.Keys
  {
    var after := CutOn(m, v, rate, m.Keys);
    if m.Keys == {} {
      SumEmpty(m, DelegatedAt);
      SumEmpty(m, ToValidator(w));
      SumEmpty(m, CutAt(v, rate));
      SumEmpty(after, DelegatedAt);
      SumEmpty(after, ToValidator(w));
    } else {
      var k :| k in m.Keys;
      SumPick(m, DelegatedAt, k);
      SumPick(m, ToValidator(w), k);
      SumPick(m, CutAt(v, rate), k);
      CutWithout(m, v, rate, k);
      CutsAddUp(m - {k}, v, rate, w);
      if k in after {
        SumPick(after, DelegatedAt, k);
        SumPick(after, ToValidator(w), k);
      } else {
        assert after - {k} == after;
      }
    }
  }

  lemma DockKeepsHeld(accounts: map<Addr, Account>, m: map<Key, nat>, v: Addr, rate: Rate, done: set<Key>)
    requires Standing(m, accounts)
    ensures Sum(DockOn(accounts, m, v, rate, done), HeldAt) == Sum(accounts, HeldAt)
  {
    SumCongruent(DockOn(accounts, m, v, rate, done), HeldAt, accounts, HeldAt);
  }

  lemma SlashedKeepsTokens(st: State, id: string, v: Addr, slash: nat, rate: Rate)
    requires Inv(st) && v in st.stakers && slash <= AccountOf(st.accounts, v).lockedStake && Fair(rate)
    ensures Tokens(Slashed(st, id, v, slash, rate)) == Tokens(st)
  {
    var owner := OwnerCharged(st.accounts, v, slash);
    SumPut(st.accounts, HeldAt, v, owner[v]);
    DockKeepsHeld(owner, st.delegations, v, rate, st.delegations.Keys);
    CutsAddUp(st.delegations, v, rate, v);
  }

  lemma SlashedKeepsStake(st: State, id: string, v: Addr, slash: nat, rate: Rate)
    requires Inv(st) && v in st.stakers && slash <= AccountOf(st.accounts, v).lockedStake && Fair(rate)
    ensures Inv(Slashed(st, id, v, slash, rate))
  {
    var end := Slashed(st, id, v, slash, rate);
    TotalCutWithinStake(st, v, rate);
    forall w ensures StakerOf(end.stakers, w).delegated == Sum(end.delegations, ToValidator(w)) {
      assert StakerOf(st.stakers, w).delegated == Sum(st.delegations, ToValidator(w));
      CutsAddUp(st.delegations, v, rate, w);
    }
  }

  /** A slash moves stake and delegations into the permanent fund and loses nothing on the way. */
  lemma SlashKeepsInv(st: State, id: string, v: Addr)
    requires Inv(st)
    ensures Inv(Slash(st, id, v)) && Tokens(Slash(st, id, v)) == Tokens(st)
  {
    if id !in st.evidence && v in st.stakers {
      var self := AccountOf(st.accounts, v).lockedStake;
      SlashedKeepsTokens(st, id, v, DoubleVoteSlash(self), RateOf(DoubleVoteSlash(self), self));
      SlashedKeepsStake(st, id, v, DoubleVoteSlash(self), RateOf(DoubleVoteSlash(self), self));
    }
  }

  lemma TotalCutWithinStake(st: State, v: Addr, rate: Rate)
    requires Inv(st) && Fair(rate)
    ensures TotalCut(st.delegations, v, rate) <= StakerOf(st.stakers, v).delegated
  {
    SumBelow(st.delegations, CutAt(v, rate), ToValidator(v));
    assert StakerOf(st.stakers, v).delegated == Sum(st.delegations, ToValidator(v));
  }

  // ---------------------------------------------------------------- runs

  datatype Op =
    | OpDelegate(d: Addr, v: Addr, amount: nat)
    | OpUndelegate(d: Addr, v: Addr, amount: nat, now: int)
    | OpMature(u: Uid, now: int)
    | OpSlash(id: string, v: Addr)

  ghost function Step(st: State, op: Op): State {
    match op
    case OpDelegate(d, v, x) => Delegate(st, d, v, x)
    case OpUndelegate(d, v, x, now) => Undelegate(st, d, v, x, now)
    case OpMature(u, now) => Mature(st, u, now)
    case OpSlash(id, v) => Slash(st, id, v)
  }

  // ---------------------------------------------------------------- the steps in amounts and dates

  /** A delegation is accepted exactly from a named delegator to a known active validator, for at least
      a thousand tokens that are there; it moves them from the balance into the delegation. */
  lemma DelegateIs(st: State, d: Addr, v: Addr, amount: nat)
    ensures var acc, end := AccountOf(st.accounts, d), Step(st, OpDelegate(d, v, amount));
            if d != "" && v != "" && amount >= 100_000_000_000 && v in st.stakers && st.stakers[v].active && amount <= acc.balance
            then
              var held := if (d, v) in st.delegations then st.delegations[(d, v)] else 0;
              && end.accounts == st.accounts[d := acc.(balance := acc.balance - amount)]
              && end.delegations == st.delegations[(d, v) := held + amount]
              && end.stakers == st.stakers[v := st.stakers[v].(delegated := st.stakers[v].delegated + amount)]
            else end == st
  {
  }

  /** Undelegated tokens are unbonding for seven days: until then the entry pays nothing, and from then
      on exactly the amount taken out of the delegation. */
  lemma UnbondingTakesAWeek(st: State, d: Addr, v: Addr, amount: nat, t0: int, t1: int)
    requires d != "" && v != "" && 0 < amount && (d, v) in st.delegations
    ensures var x, u, mid := st.delegations[(d, v)], NextUid(st, d, v, t0), Step(st, OpUndelegate(d, v, amount, t0));
            var end := Step(mid, OpMature(u, t1));
            if amount > x then mid == st
            else
              && mid.delegations == (if amount == x then st.delegations - {(d, v)} else st.delegations[(d, v) := x - amount])
              && mid.accounts == st.accounts[d := AccountOf(st.accounts, d).(unbonding := AccountOf(st.accounts, d).unbonding + amount)]
              && u in mid.entries
              && (t1 < t0 + 604_800 ==> end == mid)
              && (t1 >= t0 + 604_800 ==>
                    && end.accounts[d] == AccountOf(st.accounts, d).(balance := AccountOf(st.accounts, d).balance + amount)
                    && u !in end.entries)
  {
  }

  /** `half` is half of a stake, rounded down, and all of a stake of one. */
  ghost predicate HalfOf(stake: nat, half: nat) { if stake <= 1 then half == stake else 2 * half <= stake < 2 * half + 2 }

  /** Evidence against a validator counts once, and takes half of its locked stake; it stays active only
      if some stake is left. */
  lemma SlashTakesHalf(st: State, id: string, v: Addr, half: nat)
    requires v in st.stakers && HalfOf(AccountOf(st.accounts, v).lockedStake, half)
    ensures var self, end := AccountOf(st.accounts, v).lockedStake, Step(st, OpSlash(id, v));
            if id in st.evidence then end == st
            else
              && id in end.evidence && v in end.stakers && end.stakers[v].stake == self - half
              && AccountOf(end.accounts, v).lockedStake == self - half
              && end.stakers[v].active == (st.stakers[v].active && self > half)
  {
    assert DoubleVoteSlash(AccountOf(st.accounts, v).lockedStake) == half;
  }

  lemma CutIs(x: nat, half: nat, self: nat, c: nat)
    requires half <= self && 0 < self && x <= MAX_U64 && self * c <= x * half < self * (c + 1)
    ensures RateOf(half, self)(x) == c && c <= x
  {
    assert x * half >= 0;
    QuotientIs(x * half, self, c);
    DivBound(x, half, self);
  }

  /** The same evidence takes from every delegation to the validator the fraction that half is of the
      stake, rounded down (`c`), and the delegation is gone when that is all of it; a delegation to
      another validator keeps its amount. */
  lemma SlashCutsDelegation(st: State, id: string, v: Addr, k: Key, half: nat, c: nat)
    requires id !in st.evidence && v in st.stakers && st.stakers[v].delegated > 0
    requires k in st.delegations && 0 < st.delegations[k] <= MAX_U64
    requires var self := AccountOf(st.accounts, v).lockedStake;
             && 0 < self && HalfOf(self, half)
             && self * c <= st.delegations[k] * half < self * (c + 1)
    ensures var x, after := st.delegations[k], Step(st, OpSlash(id, v)).delegations;
            && c <= x
            && (k.1 != v ==> k in after && after[k] == x)
            && (k.1 == v && c < x ==> k in after && after[k] == x - c)
            && (k.1 == v && c == x ==> k !in after)
  {
    var self := AccountOf(st.accounts, v).lockedStake;
    assert DoubleVoteSlash(self) == half;
    CutIs(st.delegations[k], half, self, c);
  }

  /** A slashed delegator that is not the validator itself also has the cut taken off its unbonding counter,
      where that is large enough; its balance and its own stake stay. */
  lemma SlashDocksUnbonding(st: State, id: string, v: Addr, a: Addr, half: nat, c: nat)
    requires id !in st.evidence && v in st.stakers && st.stakers[v].delegated > 0 && a != v
    requires (a, v) in st.delegations && 0 < st.delegations[(a, v)] <= MAX_U64
    requires var self := AccountOf(st.accounts, v).lockedStake;
             && 0 < self && HalfOf(self, half)
             && self * c <= st.delegations[(a, v)] * half < self * (c + 1)
    ensures var before, after := AccountOf(st.accounts, a), AccountOf(Step(st, OpSlash(id, v)).accounts, a);
            && after.balance == before.balance && after.lockedStake == before.lockedStake
            && after.unbonding == if before.unbonding >= c then before.unbonding - c else before.unbonding
  {
    var self := AccountOf(st.accounts, v).lockedStake;
    assert DoubleVoteSlash(self) == half;
    CutIs(st.delegations[(a, v)], half, self, c);
    DockedIs(st.accounts, st.delegations, v, half, RateOf(half, self), a);
  }

  lemma DockedIs(accounts: map<Addr, Account>, m: map<Key, nat>, v: Addr, slash: nat, rate: Rate, a: Addr)
    requires slash <= AccountOf(accounts, v).lockedStake && a != v && (a, v) in m
    ensures AccountOf(AccountsAfter(accounts, m, v, slash, rate, true), a) == Docked(AccountOf(accounts, a), rate(m[(a, v)]))
  {
    var owner := OwnerCharged(accounts, v, slash);
    var k := (a, v);
    assert rate(m[k]) > 0 ==> k.0 in Holders(m, v, rate, m.Keys);
  }

  ghost function Run(st: State, ops: seq<Op>): State
    decreases |ops|
  {
    if ops == [] then st else Run(Step(st, ops[0]), ops[1..])
  }

  /** Block time so far, and whether an unbonding was opened at it. */
  datatype Clock = Clock(now: int, unbonded: bool)

  /** Time does not go back, and maturities at a time come before unbondings at it. */
  predicate Admits(c: Clock, op: Op) {
    match op
    case OpUndelegate(_, _, _, now) => c.now <= now
    case OpMature(_, now) => c.now < now || (c.now == now && !c.unbonded)
    case _ => true
  }

  function Tick(c: Clock, op: Op): Clock {
    match op
    case OpUndelegate(_, _, _, now) => Clock(now, true)
    case OpMature(_, now) => Clock(now, false)
    case _ => c
  }

  predicate Scheduled(c: Clock, ops: seq<Op>)
    decreases |ops|
  {
    ops == [] || (Admits(c, ops[0]) && Scheduled(Tick(c, ops[0]), ops[1..]))
  }

  /** The id a step hands out, if any. */
  function IssuedBy(st: State, op: Op): seq<Uid> {
    if op.OpUndelegate? && CanUndelegate(st, op.d, op.v, op.amount) then [NextUid(st, op.d, op.v, op.now)] else []
  }

  /** Every id handed out along a run, in order. */
  ghost function Issued(st: State, ops: seq<Op>): seq<Uid>
    decreases |ops|
  {
    if ops == [] then [] else IssuedBy(st, ops[0]) + Issued(Step(st, ops[0]), ops[1..])
  }

  /** Ids handed out so far cannot come up again from here. */
  ghost predicate Past(entries: map<Uid, Entry>, c: Clock, ids: set<Uid>) {
    && (forall u | u in entries :: u in ids)
    && forall u | u in ids :: u.now < c.now || (u.now == c.now && c.unbonded && u.number < |entries|)
  }

  lemma UnbondingStaysPast(entries: map<Uid, Entry>, c: Clock, ids: set<Uid>, u: Uid, e: Entry)
    requires Past(entries, c, ids) && c.now <= u.now && u.number == |entries|
    ensures u !in ids && u !in entries && Past(entries[u := e], Clock(u.now, true), ids + {u})
  {
    assert |entries[u := e]| == |entries| + 1;
  }

  lemma OtherStepsKeepEntries(st: State, op: Op)
    requires op.OpDelegate? || op.OpSlash?
    ensures Step(st, op).entries == st.entries
  {
  }

  lemma StepStaysPast(st: State, c: Clock, ids: set<Uid>, op: Op)
    requires Past(st.entries, c, ids) && Admits(c, op)
    ensures Past(Step(st, op).entries, Tick(c, op), ids + Stops(IssuedBy(st, op)))
    ensures forall u | u in IssuedBy(st, op) :: u !in ids && u !in st.entries
  {
    match op
    case OpDelegate(_, _, _) => OtherStepsKeepEntries(st, op);
    case OpSlash(_, _) => OtherStepsKeepEntries(st, op);
    case OpMature(u, now) =>
    case OpUndelegate(d, v, x, now) =>
      if CanUndelegate(st, d, v, x) {
        UnbondingStaysPast(st.entries, c, ids, NextUid(st, d, v, now), Entry(d, x, now + UNBONDING_SECONDS));
        assert Stops(IssuedBy(st, op)) == {NextUid(st, d, v, now)};
      }
  }

  lemma StepKeepsLedger(st: State, c: Clock, ids: set<Uid>, op: Op)
    requires Inv(st) && Past(st.entries, c, ids) && Admits(c, op)
    ensures Inv(Step(st, op)) && Tokens(Step(st, op)) == Tokens(st)
  {
    match op
    case OpDelegate(d, v, x) => DelegateKeepsInv(st, d, v, x);
    case OpMature(u, now) => MatureKeepsInv(st, u, now);
    case OpSlash(id, v) => SlashKeepsInv(st, id, v);
    case OpUndelegate(d, v, x, now) =>
      if CanUndelegate(st, d, v, x) {
        StepStaysPast(st, c, ids, op);
        assert NextUid(st, d, v, now) in IssuedBy(st, op);
        UndelegateConservesExactly(st, d, v, x, now);
      }
  }

  /** What a step overwrites: the unbonding entry whose id it reuses. */
  ghost function Overwritten(st: State, op: Op): nat {
    if op.OpUndelegate? && CanUndelegate(st, op.d, op.v, op.amount) && NextUid(st, op.d, op.v, op.now) in st.entries
    then st.entries[NextUid(st, op.d, op.v, op.now)].amount else 0
  }

  ghost function OverwrittenAlong(st: State, ops: seq<Op>): nat
    decreases |ops|
  {
    if ops == [] then 0 else Overwritten(st, ops[0]) + OverwrittenAlong(Step(st, ops[0]), ops[1..])
  }

  lemma UndelegateLosesOverwritten(st: State, op: Op)
    requires Inv(st) && op.OpUndelegate? && CanUndelegate(st, op.d, op.v, op.amount)
    ensures Inv(Step(st, op)) && Tokens(Step(st, op)) + Overwritten(st, op) == Tokens(st)
  {
    var end, u := Step(st, op), NextUid(st, op.d, op.v, op.now);
    UndelegateKeepsInv(st, op.d, op.v, op.amount, op.now);
    SumPut(st.accounts, HeldAt, op.d, end.accounts[op.d]);
    SumPut(st.entries, EntryAt, u, end.entries[u]);
    TakeDelegation(st.delegations, (op.d, op.v), op.amount, op.v);
  }

  lemma StepLosesOverwritten(st: State, op: Op)
    requires Inv(st)
    ensures Inv(Step(st, op)) && Tokens(Step(st, op)) + Overwritten(st, op) == Tokens(st)
  {
    match op
    case OpDelegate(d, v, x) => DelegateKeepsInv(st, d, v, x);
    case OpMature(u, now) => MatureKeepsInv(st, u, now);
    case OpSlash(id, v) => SlashKeepsInv(st, id, v);
    case OpUndelegate(d, v, x, now) => if CanUndelegate(st, d, v, x) { UndelegateLosesOverwritten(st, op); }
  }

  /** Over every run whatsoever, delegated stake stays the sum of delegations, and tokens are conserved
      if and only if no unbonding entry was overwritten: the shortfall is exactly what was in those. */
  lemma {:induction false} RunConservesExactly(st: State, ops: seq<Op>)
    requires Inv(st)
    ensures Inv(Run(st, ops)) && Tokens(Run(st, ops)) + OverwrittenAlong(st, ops) == Tokens(st)
    ensures Tokens(Run(st, ops)) == Tokens(st) <==> OverwrittenAlong(st, ops) == 0
    decreases |ops|
  {
    if ops != [] {
      StepLosesOverwritten(st, ops[0]);
      RunConservesExactly(Step(st, ops[0]), ops[1..]);
    }
  }

  /** Staking ledger over every scheduled run: delegated stake is the sum of delegations, and no
      token is created or lost. */
  lemma {:induction false} RunKeepsLedger(st: State, c: Clock, ids: set<Uid>, ops: seq<Op>)
    requires Inv(st) && Past(st.entries, c, ids) && Scheduled(c, ops)
    ensures Inv(Run(st, ops)) && Tokens(Run(st, ops)) == Tokens(st)
    decreases |ops|
  {
    if ops != [] {
      StepStaysPast(st, c, ids, ops[0]);
      StepKeepsLedger(st, c, ids, ops[0]);
      RunKeepsLedger(Step(st, ops[0]), Tick(c, ops[0]), ids + Stops(IssuedBy(st, ops[0])), ops[1..]);
    }
  }

  /** New and pairwise different. */
  ghost predicate FreshIds(issued: seq<Uid>, ids: set<Uid>) {
    && (forall i | 0 <= i < |issued| :: issued[i] !in ids)
    && forall i, j | 0 <= i < j < |issued| :: issued[i] != issued[j]
  }

  lemma FreshAfter(first: seq<Uid>, rest: seq<Uid>, ids: set<Uid>)
    requires |first| <= 1 && (forall u | u in first :: u !in ids) && FreshIds(rest, ids + Stops(first))
    ensures FreshIds(first + rest, ids)
  {
    assert forall u | u in first :: u in Stops(first);
  }

  /** No scheduled run ever hands out an unbonding id twice. */
  lemma {:induction false} IdsAreNeverReused(st: State, c: Clock, ids: set<Uid>, ops: seq<Op>)
    requires Past(st.entries, c, ids) && Scheduled(c, ops)
    ensures FreshIds(Issued(st, ops), ids)
    decreases |ops|
  {
    if ops != [] {
      var first := IssuedBy(st, ops[0]);
      StepStaysPast(st, c, ids, ops[0]);
      IdsAreNeverReused(Step(st, ops[0]), Tick(c, ops[0]), ids + Stops(first), ops[1..]);
      FreshAfter(first, Issued(Step(st, ops[0]), ops[1..]), ids);
    }
  }

  /** Out of order, ids do come back: an unbonding, then one maturity at the same time, then a
      second unbonding by the same delegator replaces the first one's entry. */
  lemma LateMaturityReusesId(st: State, d: Addr, v: Addr, x: nat, y: nat, now: int, ripe: Uid)
    requires Inv(st) && Past(st.entries, Clock(now, false), st.entries.Keys)
    requires ripe in st.entries && now >= st.entries[ripe].matures
    requires 0 < y && x > 0 && (d, v) in st.delegations && x + y <= st.delegations[(d, v)] && d != "" && v != ""
    ensures var mid := Mature(Undelegate(st, d, v, x, now), ripe, now);
            && NextUid(mid, d, v, now) == NextUid(st, d, v, now) && NextUid(mid, d, v, now) in mid.entries
            && Tokens(Undelegate(mid, d, v, y, now)) != Tokens(mid)
  {
    var one := Undelegate(st, d, v, x, now);
    var u := NextUid(st, d, v, now);
    assert u !in st.entries && u != ripe;
    UndelegateConservesExactly(st, d, v, x, now);
    MatureKeepsInv(one, ripe, now);
    var mid := Mature(one, ripe, now);
    assert |one.entries| == |st.entries| + 1;
    assert mid.entries == one.entries - {ripe};
    assert |mid.entries| == |one.entries| - 1;
    UndelegateConservesExactly(mid, d, v, y, now);
  }

  // ---------------------------------------------------------------- the store

  /** Paying out matured entries along a walk. */
  function MatureAlong(st: State, order: seq<Uid>, now: int): State {
    if order == [] then st else Mature(MatureAlong(st, order[..|order| - 1], now), order[|order| - 1], now)
  }

  lemma MatureOneMore(st: State, order: seq<Uid>, u: Uid, now: int)
    ensures MatureAlong(st, order + [u], now) == Mature(MatureAlong(st, order, now), u, now)
  {
    assert (order + [u])[..|order|] == order;
  }

  function CutOne(m: map<Key, nat>, k: Key, rate: Rate): map<Key, nat>
    requires k in m
  {
    if rate(m[k]) == 0 then m else if rate(m[k]) >= m[k] then m - {k} else m[k := m[k] - rate(m[k])]
  }

  function DockOne(accounts: map<Addr, Account>, a: Addr, cut: nat): map<Addr, Account> {
    if cut == 0 then accounts else accounts[a := Docked(AccountOf(accounts, a), cut)]
  }

  /** One delegation's turn in the slashing loop. */
  lemma CutTurn(m: map<Key, nat>, v: Addr, rate: Rate, done: set<Key>, k: Key)
    requires Fair(rate) && k in m && k !in done
    ensures k in CutOn(m, v, rate, done) && CutOn(m, v, rate, done)[k] == m[k]
    ensures CutOn(m, v, rate, done + {k}) == if k.1 == v then CutOne(CutOn(m, v, rate, done), k, rate) else CutOn(m, v, rate, done)
    ensures Sum(Restrict(m, done + {k}), CutAt(v, rate))
            == Sum(Restrict(m, done), CutAt(v, rate)) + (if k.1 == v then rate(m[k]) else 0)
  {
    CutMapTurn(m, v, rate, done, k);
    RestrictGrows(m, done, k, CutAt(v, rate));
  }

  lemma CutMapTurn(m: map<Key, nat>, v: Addr, rate: Rate, done: set<Key>, k: Key)
    requires Fair(rate) && k in m && k !in done
    ensures k in CutOn(m, v, rate, done) && CutOn(m, v, rate, done)[k] == m[k]
    ensures CutOn(m, v, rate, done + {k}) == if k.1 == v then CutOne(CutOn(m, v, rate, done), k, rate) else CutOn(m, v, rate, done)
  {
    CutElsewhere(m, v, rate, done, k);
    CutHere(m, v, rate, done, k);
    ChangeOne(CutOn(m, v, rate, done), CutOn(m, v, rate, done + {k}), k, if k.1 == v then CutTo(m[k], rate) else Some(m[k]));
  }

  /** What a cut leaves of a delegation, if anything. */
  function CutTo(x: nat, rate: Rate): Option<nat> {
    if rate(x) == 0 then Some(x) else if rate(x) >= x then None else Some(x - rate(x))
  }

  lemma CutElsewhere(m: map<Key, nat>, v: Addr, rate: Rate, done: set<Key>, k: Key)
    ensures SameBut(CutOn(m, v, rate, done), CutOn(m, v, rate, done + {k}), k)
  {
  }

  lemma CutHere(m: map<Key, nat>, v: Addr, rate: Rate, done: set<Key>, k: Key)
    requires Fair(rate) && k in m && k !in done
    ensures k in CutOn(m, v, rate, done) && CutOn(m, v, rate, done)[k] == m[k]
    ensures Holds(CutOn(m, v, rate, done + {k}), k, if k.1 == v then CutTo(m[k], rate) else Some(m[k]))
  {
  }

  predicate SameBut(before: map<Key, nat>, after: map<Key, nat>, k: Key) {
    (forall j | j in before && j != k :: j in after && after[j] == before[j]) && (forall j | j in after && j != k :: j in before)
  }

  predicate Holds(m: map<Key, nat>, k: Key, x: Option<nat>) {
    match x
    case None => k !in m
    case Some(y) => k in m && m[k] == y
  }

  lemma ChangeOne(before: map<Key, nat>, after: map<Key, nat>, k: Key, x: Option<nat>)
    requires SameBut(before, after, k) && Holds(after, k, x)
    ensures after == match x case None => before - {k} case Some(y) => before[k := y]
  {
  }

  lemma DockTurn(accounts: map<Addr, Account>, m: map<Key, nat>, v: Addr, rate: Rate, done: set<Key>, k: Key)
    requires k in m && k !in done
    ensures DockOn(accounts, m, v, rate, done + {k})
            == if k.1 == v then DockOne(DockOn(accounts, m, v, rate, done), k.0, rate(m[k])) else DockOn(accounts, m, v, rate, done)
  {
    if k.1 == v && rate(m[k]) > 0 {
      assert Holders(m, v, rate, done + {k}) == Holders(m, v, rate, done) + {k.0};
    } else {
      assert Holders(m, v, rate, done + {k}) == Holders(m, v, rate, done);
    }
  }

  lemma SlashWalkEnds(accounts: map<Addr, Account>, m: map<Key, nat>, v: Addr, rate: Rate)
    ensures CutOn(m, v, rate, {}) == m && DockOn(accounts, m, v, rate, {}) == accounts
    ensures Sum(Restrict(m, {}), CutAt(v, rate)) == 0 && Restrict(m, m.Keys) == m
  {
    SumEmpty(Restrict(m, {}), CutAt(v, rate));
  }

  lemma WalkTurn(keys: set<Key>, todo: set<Key>, done: set<Key>, k: Key)
    requires todo <= keys && done == keys - todo && k in todo
    ensures done + {k} == keys - (todo - {k})
  {
  }

  class StakingLedger {
    var accounts: map<Addr, Account>
    var stakers: map<Addr, Staker>
    var delegations: map<Key, nat>
    var entries: map<Uid, Entry>
    var fund: nat
    var evidence: set<string>

    ghost function View(): State
      reads this
    {
      State(accounts, stakers, delegations, entries, fund, evidence)
    }

    method DelegateStake(d: Addr, v: Addr, amount: nat) returns (ok: bool)
      requires StakerOf(stakers, v).delegated + amount <= MAX_U64
      modifies this
      ensures View() == Delegate(old(View()), d, v, amount) && ok == CanDelegate(old(View()), d, v, amount)
    {
      if d == "" || v == "" || amount < MIN_DELEGATION { return false; }
      if v !in stakers || !stakers[v].active { return false; }
      var account := AccountOf(accounts, d);
      if account.balance < amount { return false; }
      var existing := if (d, v) in delegations then delegations[(d, v)] else 0;
      delegations := delegations[(d, v) := existing + amount];
      accounts := accounts[d := account.(balance := account.balance - amount)];
      stakers := stakers[v := stakers[v].(delegated := SatAdd(stakers[v].delegated, amount))];
      return true;
    }

    method Withdraw(k: Key, amount: nat)
      requires k in delegations && amount <= delegations[k]
      modifies this`delegations
      ensures delegations == Taken(old(delegations), k, amount)
    {
      var left := delegations[k] - amount;
      if left == 0 {
        delegations := delegations - {k};
      } else {
        delegations := delegations[k := left];
      }
    }

    method UndelegateStake(d: Addr, v: Addr, amount: nat, now: int) returns (ok: bool)
      modifies this
      ensures View() == Undelegate(old(View()), d, v, amount, now) && ok == CanUndelegate(old(View()), d, v, amount)
    {
      if d == "" || v == "" || amount == 0 { return false; }
      if (d, v) !in delegations || delegations[(d, v)] < amount { return false; }
      Withdraw((d, v), amount);
      var account := AccountOf(accounts, d);
      accounts := accounts[d := account.(unbonding := account.unbonding + amount)];
      var number := |entries|;
      entries := entries[Uid(d, v, now, number) := Entry(d, amount, now + UNBONDING_SECONDS)];
      var staker := StakerOf(stakers, v);
      if staker.delegated >= amount {
        staker := staker.(delegated := staker.delegated - amount);
      } else {
        staker := staker.(delegated := 0);
      }
      stakers := stakers[v := staker];
      return true;
    }

    /** Pays out every matured entry, in whatever order the map yields them. */
    method ProcessMatured(now: int) returns (ghost order: seq<Uid>)
      requires Inv(View())
      modifies this
      ensures View() == MatureAlong(old(View()), order, now)
      ensures Inv(View()) && Tokens(View()) == old(Tokens(View()))
      ensures entries == map u | u in old(entries) && now < old(entries)[u].matures :: old(entries)[u]
    {
      ghost var start := View();
      order := [];
      var todo := entries.Keys;
      while todo != {}
        invariant todo <= entries.Keys <= start.entries.Keys
        invariant View() == MatureAlong(start, order, now) && Inv(View()) && Tokens(View()) == Tokens(start)
        invariant forall u | u in start.entries :: u in entries <==> u in todo || now < start.entries[u].matures
        invariant forall u | u in entries :: entries[u] == start.entries[u]
      {
        var u :| u in todo;
        var e := entries[u];
        if now >= e.matures {
          MatureKeepsInv(View(), u, now);
          MatureOneMore(start, order, u, now);
          PayOut(u, now);
          order := order + [u];
        }
        todo := todo - {u};
      }
    }

    method PayOut(u: Uid, now: int)
      requires u in entries && now >= entries[u].matures
      modifies this`accounts, this`entries
      ensures View() == Mature(old(View()), u, now)
    {
      var e := entries[u];
      var account := AccountOf(accounts, e.delegator);
      if account.unbonding >= e.amount {
        account := account.(unbonding := account.unbonding - e.amount);
      } else {
        account := account.(unbonding := 0);
      }
      accounts := accounts[e.delegator := account.(balance := account.balance + e.amount)];
      entries := entries - {u};
    }

    /** Slashes the delegations to `v`, in whatever order the map yields them. */
    method SlashDelegators(v: Addr, rate: Rate) returns (total: nat)
      requires Fair(rate)
      modifies this`accounts, this`delegations
      ensures delegations == CutOn(old(delegations), v, rate, old(delegations).Keys)
      ensures accounts == DockOn(old(accounts), old(delegations), v, rate, old(delegations).Keys)
      ensures total == TotalCut(old(delegations), v, rate)
    {
      ghost var m, owners := delegations, accounts;
      total := 0;
      var todo := delegations.Keys;
      ghost var done: set<Key> := {};
      SlashWalkEnds(owners, m, v, rate);
      while todo != {}
        invariant todo <= m.Keys && done == m.Keys - todo
        invariant delegations == CutOn(m, v, rate, done)
        invariant accounts == DockOn(owners, m, v, rate, done)
        invariant total == Sum(Restrict(m, done), CutAt(v, rate))
      {
        var k :| k in todo;
        CutTurn(m, v, rate, done, k);
        DockTurn(owners, m, v, rate, done, k);
        if k.1 == v {
          var cut := SlashDelegation(k, rate);
          total := total + cut;
        }
        WalkTurn(m.Keys, todo, done, k);
        todo, done := todo - {k}, done + {k};
      }
      assert done == m.Keys;
    }

    method SlashDelegation(k: Key, rate: Rate) returns (cut: nat)
      requires Fair(rate) && k in delegations
      modifies this`accounts, this`delegations
      ensures cut == rate(old(delegations)[k])
      ensures accounts == DockOne(old(accounts), k.0, cut) && delegations == CutOne(old(delegations), k, rate)
    {
      var amount := delegations[k];
      cut := rate(amount);
      if cut == 0 { return; }
      if amount == cut {
        delegations := delegations - {k};
      } else {
        delegations := delegations[k := amount - cut];
      }
      var account := AccountOf(accounts, k.0);
      if account.unbonding >= cut { account := account.(unbonding := account.unbonding - cut); }
      accounts := accounts[k.0 := account];
    }

    /** Applies one piece of double-vote evidence, at most once per evidence id. */
    method ApplyEvidence(id: string, v: Addr) returns (applied: bool)
      modifies this
      ensures View() == Slash(old(View()), id, v) && applied == (id !in old(evidence) && v in old(stakers))
    {
      if id in evidence || v !in stakers { return false; }
      var self := AccountOf(accounts, v).lockedStake;
      var slash := DoubleVoteSlash(self);
      TakeStake(id, v, slash, RateOf(slash, self));
      return true;
    }

    method TakeStake(id: string, v: Addr, slash: nat, rate: Rate)
      requires Fair(rate) && v in stakers && slash <= AccountOf(accounts, v).lockedStake
      modifies this`accounts, this`delegations, this`stakers, this`fund, this`evidence
      ensures var self := AccountOf(old(accounts), v).lockedStake;
              var hit := old(stakers)[v].delegated > 0 && self > 0;
              var cuts := CutsAfter(old(delegations), v, rate, hit);
              var s := old(stakers)[v];
              && accounts == AccountsAfter(old(accounts), old(delegations), v, slash, rate, hit)
              && delegations == DelegationsAfter(old(delegations), v, rate, hit)
              && stakers == old(stakers)[v := Staker(s.active && self > slash, Sub(s.delegated, cuts), self - slash, s.slashed + slash + cuts)]
              && fund == old(fund) + slash + cuts && evidence == old(evidence) + {id}
    {
      var self := AccountOf(accounts, v).lockedStake;
      var hit := stakers[v].delegated > 0 && self > 0;
      var cuts := CutStakeholders(v, slash, rate, hit);
      CloseSlash(id, v, self, slash, cuts);
    }

    method CutStakeholders(v: Addr, slash: nat, rate: Rate, hit: bool) returns (cuts: nat)
      requires Fair(rate)
      requires slash <= AccountOf(accounts, v).lockedStake
      modifies this`accounts, this`delegations
      ensures accounts == AccountsAfter(old(accounts), old(delegations), v, slash, rate, hit)
      ensures delegations == DelegationsAfter(old(delegations), v, rate, hit)
      ensures cuts == CutsAfter(old(delegations), v, rate, hit)
    {
      accounts := OwnerCharged(accounts, v, slash);
      if hit {
        cuts := SlashDelegators(v, rate);
      } else {
        cuts := 0;
      }
    }

    method CloseSlash(id: string, v: Addr, self: nat, slash: nat, cuts: nat)
      requires v in stakers && slash <= self
      modifies this`stakers, this`fund, this`evidence
      ensures var s := old(stakers)[v];
              stakers == old(stakers)[v := Staker(s.active && self > slash, Sub(s.delegated, cuts), self - slash, s.slashed + slash + cuts)]
      ensures fund == old(fund) + slash + cuts && evidence == old(evidence) + {id}
    {
      var staker := stakers[v];
      fund := fund + slash + cuts;
      stakers := stakers[v := Staker(staker.active && self - slash > 0,
                                     if staker.delegated > cuts then staker.delegated - cuts else 0,
                                     self - slash, staker.slashed + slash + cuts)];
      evidence := evidence + {id};
    }
  }
}
