/** Mining-reward vesting: day buckets that vest linearly over 90 days, claims in any order, and
    oldest-first slashing. The loops of the store walk the bucket map in an arbitrary order, clamp
    against the account's pending counter and sort before slashing; the functions here say in
    closed form what they must do. */
module Vesting {
  import opened Numbers
  import opened Sums

  const VESTING_DAYS: int := 90

  type Key = (Addr, int)

  datatype Bucket = Bucket(address: Addr, day: int, total: nat, released: nat)
  datatype Account = Account(balance: nat, pending: nat)
  datatype State = State(accounts: map<Addr, Account>, buckets: map<Key, Bucket>)

  function AccountOf(accounts: map<Addr, Account>, a: Addr): Account {
    if a in accounts then accounts[a] else Account(0, 0)
  }

  function DayStart(unix: int): int { if unix <= 0 then 0 else unix - unix % DAY_SECONDS }

  /** Whole days since the bucket's day, capped at the vesting period; zero for a bucket on day zero. */
  function ElapsedDays(day: int, now: int): (d: int)
    ensures 0 <= d <= VESTING_DAYS
  {
    if day == 0 || now <= day then 0
    else if (now - day) / DAY_SECONDS > VESTING_DAYS then VESTING_DAYS
    else (now - day) / DAY_SECONDS
  }

  /** What should have been released after `d` days; the product wraps at 64 bits. */
  function Target(total: nat, d: int): (t: nat)
    requires 0 <= d <= VESTING_DAYS
    ensures t <= total
  {
    if d == VESTING_DAYS then total
    else
      DivBound(total, d, 90);
      DivMono(WrapMul(total, d), total * d, 90);
      WrapMul(total, d) / 90
  }

  function Releasable(b: Bucket, now: int): (r: nat)
    ensures b.released <= b.total ==> b.released + r <= b.total
  {
    var d := ElapsedDays(b.day, now);
    if b.total <= b.released || d == 0 then 0
    else if Target(b.total, d) <= b.released then 0
    else Target(b.total, d) - b.released
  }

  // ---------------------------------------------------------------- the ledger in closed form

  function Unreleased(b: Bucket): int { b.total - b.released }

  ghost function UnreleasedOf(a: Addr): (Key, Bucket) -> int {
    (k: Key, b: Bucket) => if b.address == a then Unreleased(b) else 0
  }

  /** A release rule says how much a bucket gives; a sound one never releases past the total. */
  type Rule = Bucket -> nat

  ghost predicate Sound(rule: Rule) {
    forall b: Bucket :: b.released <= b.total ==> b.released + rule(b) <= b.total
  }

  function At(now: int): (r: Rule)
    ensures Sound(r)
  {
    (b: Bucket) => Releasable(b, now)
  }

  ghost function ReleaseOf(a: Addr, rule: Rule): (Key, Bucket) -> int {
    (k: Key, b: Bucket) => if b.address == a then rule(b) else 0
  }

  /** Every stored bucket is live, sits under its own key, and an account's pending counter is
      the unreleased total of its buckets. */
  ghost predicate Inv(st: State) {
    && (forall k | k in st.buckets :: var b := st.buckets[k];
          k == (b.address, b.day) && b.address != "" && b.released < b.total <= MAX_U64)
    && (forall a :: AccountOf(st.accounts, a).pending == Sum(st.buckets, UnreleasedOf(a)))
    && (forall a | a in st.accounts :: st.accounts[a].balance + st.accounts[a].pending <= MAX_U64)
  }

  function Vest(st: State, a: Addr, amount: nat, now: int): State {
    if amount == 0 || a == "" then st
    else
      var key := (a, DayStart(now));
      var b := if key in st.buckets then st.buckets[key] else Bucket(a, DayStart(now), 0, 0);
      var acc := AccountOf(st.accounts, a);
      State(st.accounts[a := acc.(pending := SatAdd(acc.pending, amount))],
            st.buckets[key := b.(total := SatAdd(b.total, amount))])
  }

  function Advanced(b: Bucket, rule: Rule): Bucket { b.(released := b.released + rule(b)) }
  predicate Live(b: Bucket) { b.released < b.total }

  function Credit(acc: Account, r: int): Account {
    if 0 <= r <= acc.pending then Account(acc.balance + r, acc.pending - r) else acc
  }

  /** Releasing the buckets `done` all at once. */
  ghost function ReleaseOn(st: State, done: set<Key>, rule: Rule): State {
    State(map a | a in st.accounts :: Credit(st.accounts[a], Sum(Restrict(st.buckets, done), ReleaseOf(a, rule))),
          BucketsAfter(st.buckets, done, rule))
  }

  ghost function BucketsAfter(m: map<Key, Bucket>, done: set<Key>, rule: Rule): map<Key, Bucket> {
    map k | k in m && (k in done ==> Live(Advanced(m[k], rule))) :: if k in done then Advanced(m[k], rule) else m[k]
  }

  ghost function KeysOf(st: State, a: Addr): set<Key> {
    set k | k in st.buckets && st.buckets[k].address == a
  }

  /** The body of the release loops, clamps included. */
  function ReleaseOne(st: State, k: Key, rule: Rule): State
    requires k in st.buckets
  {
    var b := st.buckets[k];
    var acc := AccountOf(st.accounts, b.address);
    var r := Min(rule(b), acc.pending);
    if r == 0 then st
    else
      var n := b.(released := SatAdd(b.released, r));
      State(st.accounts[b.address := Account(SatAdd(acc.balance, r), acc.pending - r)],
            if n.released >= n.total then st.buckets - {k} else st.buckets[k := n])
  }

  /** What is releasable for an account never exceeds its pending counter, bucket set by bucket set. */
  lemma ReleasableIsPending(st: State, done: set<Key>, a: Addr, rule: Rule)
    requires Inv(st) && Sound(rule)
    ensures 0 <= Sum(Restrict(st.buckets, done), ReleaseOf(a, rule)) <= AccountOf(st.accounts, a).pending
  {
    var m := Restrict(st.buckets, done);
    var rest := st.buckets - done;
    SumNonNegative(m, ReleaseOf(a, rule));
    SumBelow(m, ReleaseOf(a, rule), UnreleasedOf(a));
    SumNonNegative(rest, UnreleasedOf(a));
    SumSplit(st.buckets, done, UnreleasedOf(a));
  }

  lemma {:induction false} SumSplit(m: map<Key, Bucket>, s: set<Key>, f: (Key, Bucket) -> int)
    ensures Sum(m, f) == Sum(Restrict(m, s), f) + Sum(m - s, f)
    decreases m.Keys
  {
    if m.Keys == {} {
      SumEmpty(m, f);
      SumEmpty(Restrict(m, s), f);
      SumEmpty(m - s, f);
    } else {
      var k :| k in m.Keys;
      SumPick(m, f, k);
      SumSplit(m - {k}, s, f);
      if k in s {
        SumPick(Restrict(m, s), f, k);
        assert Restrict(m, s) - {k} == Restrict(m - {k}, s);
        assert m - {k} - s == m - s;
      } else {
        SumPick(m - s, f, k);
        assert m - s - {k} == m - {k} - s;
        assert Restrict(m, s) == Restrict(m - {k}, s);
      }
    }
  }

  /** One turn of the loop extends the closed form by one bucket: the clamp on the pending
      counter does not bind, whatever the order in which buckets come up. */
  lemma ReleaseOneExtends(st: State, done: set<Key>, k: Key, rule: Rule)
    requires Inv(st) && Sound(rule) && k in st.buckets && k !in done
    ensures k in ReleaseOn(st, done, rule).buckets
    ensures ReleaseOne(ReleaseOn(st, done, rule), k, rule) == ReleaseOn(st, done + {k}, rule)
  {
    var b := st.buckets[k];
    var mid, end := ReleaseOn(st, done, rule), ReleaseOn(st, done + {k}, rule);
    AccountStep(st, done, k, rule);
    BucketStep(st.buckets, done, k, rule);
    UnclampedRelease(mid, k, rule);
  }

  lemma UnclampedRelease(st: State, k: Key, rule: Rule)
    requires Sound(rule) && k in st.buckets && st.buckets[k].released < st.buckets[k].total <= MAX_U64
    requires st.buckets[k].address in st.accounts
    requires rule(st.buckets[k]) <= st.accounts[st.buckets[k].address].pending
    requires st.accounts[st.buckets[k].address].balance + rule(st.buckets[k]) <= MAX_U64
    ensures var b, r := st.buckets[k], rule(st.buckets[k]);
            ReleaseOne(st, k, rule) == if r == 0 then st else
              State(st.accounts[b.address := Credit(st.accounts[b.address], r)],
                    if Live(Advanced(b, rule)) then st.buckets[k := Advanced(b, rule)] else st.buckets - {k})
  {
    assert SatAdd(st.buckets[k].released, rule(st.buckets[k])) == Advanced(st.buckets[k], rule).released;
  }

  lemma AccountStep(st: State, done: set<Key>, k: Key, rule: Rule)
    requires Inv(st) && Sound(rule) && k in st.buckets && k !in done
    ensures var mid, end := ReleaseOn(st, done, rule).accounts, ReleaseOn(st, done + {k}, rule).accounts;
            var b, r := st.buckets[k], rule(st.buckets[k]);
            && b.address in mid && r <= mid[b.address].pending && mid[b.address].balance + r <= MAX_U64
            && end == (if r == 0 then mid else mid[b.address := Credit(mid[b.address], r)])
  {
    var b := st.buckets[k];
    var mid, end := ReleaseOn(st, done, rule).accounts, ReleaseOn(st, done + {k}, rule).accounts;
    SumPick(st.buckets, UnreleasedOf(b.address), k);
    ReleasableIsPending(st, done, b.address, rule);
    ReleasableIsPending(st, done + {k}, b.address, rule);
    RestrictGrows(st.buckets, done, k, ReleaseOf(b.address, rule));
    assert b.address in st.accounts by {
      SumCovers(st.buckets, UnreleasedOf(b.address), k);
      assert AccountOf(st.accounts, b.address).pending > 0;
    }
    CreditTwice(st.accounts[b.address], Sum(Restrict(st.buckets, done), ReleaseOf(b.address, rule)), rule(b));
    forall a | a in st.accounts && a != b.address ensures end[a] == mid[a] {
      RestrictGrows(st.buckets, done, k, ReleaseOf(a, rule));
    }
    assert end == mid[b.address := end[b.address]];
    if rule(b) == 0 { assert end == mid; }
  }

  lemma CreditTwice(acc: Account, s: int, r: nat)
    requires 0 <= s && s + r <= acc.pending
    ensures Credit(Credit(acc, s), r) == Credit(acc, s + r)
  {
  }

  lemma BucketStep(m: map<Key, Bucket>, done: set<Key>, k: Key, rule: Rule)
    requires k in m && k !in done
    ensures var mid, end := BucketsAfter(m, done, rule), BucketsAfter(m, done + {k}, rule);
            && k in mid && mid[k] == m[k]
            && (end == if Live(Advanced(m[k], rule)) then mid[k := Advanced(m[k], rule)] else mid - {k})
            && (rule(m[k]) == 0 && Live(m[k]) ==> end == mid)
  {
    if rule(m[k]) == 0 && Live(m[k]) {
      assert Advanced(m[k], rule) == m[k];
    }
  }

  // ---------------------------------------------------------------- oldest-first slashing

  ghost function OlderOf(a: Addr, day: int): (Key, Bucket) -> int {
    (k: Key, b: Bucket) => if b.address == a && b.day < day then Unreleased(b) else 0
  }

  function Clamp(x: int, hi: int): int { if x <= 0 then 0 else if x > hi then hi else x }

  /** The cut a bucket takes: what is left of the slash once every older bucket has given all it has. */
  ghost function Cut(buckets: map<Key, Bucket>, a: Addr, amount: int, b: Bucket): int {
    if b.address != a then 0 else Clamp(amount - Sum(buckets, OlderOf(a, b.day)), Unreleased(b))
  }

  ghost function Slashed(buckets: map<Key, Bucket>, a: Addr, amount: int): map<Key, Bucket> {
    map k | k in buckets && Cut(buckets, a, amount, buckets[k]) < Unreleased(buckets[k]) ::
      ReducedBy(buckets[k], Cut(buckets, a, amount, buckets[k]))
  }

  function ReducedBy(b: Bucket, cut: int): Bucket {
    if 0 <= cut <= b.total then b.(total := b.total - cut) else b
  }

  ghost function Slash(st: State, a: Addr, amount: nat): State {
    var acc := AccountOf(st.accounts, a);
    var s := Min(amount, acc.pending);
    if s == 0 then st
    else State(st.accounts[a := acc.(pending := acc.pending - s)], Slashed(st.buckets, a, s))
  }

  /** Slashing is oldest-first: a bucket is touched only once every older bucket of the account is gone. */
  lemma SlashIsOldestFirst(st: State, a: Addr, amount: nat, older: Key, younger: Key)
    requires Inv(st)
    requires older in st.buckets && younger in st.buckets
    requires st.buckets[older].address == a == st.buckets[younger].address
    requires st.buckets[older].day < st.buckets[younger].day
    requires younger !in Slash(st, a, amount).buckets || Slash(st, a, amount).buckets[younger] != st.buckets[younger]
    ensures older !in Slash(st, a, amount).buckets
  {
    var s := Min(amount, AccountOf(st.accounts, a).pending);
    var o, y := st.buckets[older], st.buckets[younger];
    SumPick(st.buckets, OlderOf(a, y.day), older);
    SumPick(st.buckets, OlderOf(a, o.day), older);
    SumBelow(st.buckets - {older}, OlderOf(a, o.day), OlderOf(a, y.day));
  }

  ghost predicate IsYoungest(m: map<Key, Bucket>, a: Addr, k: Key) {
    k in m && m[k].address == a && forall j | j in m && m[j].address == a && j != k :: m[j].day < m[k].day
  }

  lemma {:induction false} YoungestExists(m: map<Key, Bucket>, a: Addr) returns (k: Key)
    requires forall j | j in m :: j == (m[j].address, m[j].day)
    requires exists j :: j in m && m[j].address == a
    ensures IsYoungest(m, a, k)
    decreases m.Keys
  {
    k :| k in m && m[k].address == a;
    if j :| j in m && m[j].address == a && j != k && m[j].day >= m[k].day {
      assert j in m - {k};
      var first := k;
      k := YoungestExists(m - {first}, a);
      assert m[first].day < m[k].day;
      assert forall i | i in m && i != first :: i in m - {first};
    }
  }

  /** The cuts of one slash add up to the slash: the account's unreleased total falls by exactly
      that much, and no other account's moves. */
  lemma {:induction false} CutsAddUp(m: map<Key, Bucket>, a: Addr, amount: nat, c: Addr)
    requires forall k | k in m :: k == (m[k].address, m[k].day) && m[k].released < m[k].total
    ensures Sum(Slashed(m, a, amount), UnreleasedOf(c))
            == Sum(m, UnreleasedOf(c)) - (if a == c then Clamp(amount, Sum(m, UnreleasedOf(c))) else 0)
    decreases m.Keys
  {
    if forall k | k in m :: m[k].address != a {
      assert Slashed(m, a, amount) == m;
      if a == c { SumZero(m, UnreleasedOf(c)); }
    } else {
      var k := YoungestExists(m, a);
      CutsAddUp(m - {k}, a, amount, c);
      YoungestCut(m, a, amount, c, k);
      if a == c { ClampSplits(amount, Sum(m - {k}, UnreleasedOf(c)), Unreleased(m[k])); }
    }
  }

  lemma ClampSplits(amount: nat, older: nat, u: nat)
    ensures Clamp(amount, older) + Clamp(amount - older, u) == Clamp(amount, older + u)
  {
  }

  lemma YoungestCut(m: map<Key, Bucket>, a: Addr, amount: nat, c: Addr, k: Key)
    requires IsYoungest(m, a, k)
    requires forall k | k in m :: m[k].released < m[k].total
    ensures Sum(m, UnreleasedOf(c)) == Sum(m - {k}, UnreleasedOf(c)) + (if a == c then Unreleased(m[k]) else 0)
    ensures 0 <= Sum(m - {k}, UnreleasedOf(c))
    ensures Sum(Slashed(m, a, amount), UnreleasedOf(c)) == Sum(Slashed(m - {k}, a, amount), UnreleasedOf(c))
            + (if a == c then Unreleased(m[k]) - Clamp(amount - Sum(m - {k}, UnreleasedOf(a)), Unreleased(m[k])) else 0)
  {
    var after := Slashed(m, a, amount);
    SumPick(m, UnreleasedOf(c), k);
    SumNonNegative(m - {k}, UnreleasedOf(c));
    SlashedWithoutYoungest(m, a, amount, k);
    YoungestSeesAll(m, a, k);
    if k in after {
      SumPick(after, UnreleasedOf(c), k);
    } else {
      assert after - {k} == after;
    }
  }

  lemma YoungestSeesAll(m: map<Key, Bucket>, a: Addr, k: Key)
    requires IsYoungest(m, a, k)
    ensures Sum(m, OlderOf(a, m[k].day)) == Sum(m - {k}, UnreleasedOf(a))
  {
    SumPick(m, OlderOf(a, m[k].day), k);
    SumCongruent(m - {k}, OlderOf(a, m[k].day), m - {k}, UnreleasedOf(a));
  }

  lemma SlashedWithoutYoungest(m: map<Key, Bucket>, a: Addr, amount: nat, k: Key)
    requires IsYoungest(m, a, k)
    ensures Slashed(m, a, amount) - {k} == Slashed(m - {k}, a, amount)
  {
    forall j | j in m && j != k
      ensures Cut(m, a, amount, m[j]) == Cut(m - {k}, a, amount, m[j])
    {
      if m[j].address == a { SumPick(m, OlderOf(a, m[j].day), k); }
    }
  }

  // ---------------------------------------------------------------- what every run keeps

  datatype Op =
    | OpVest(a: Addr, amount: nat, now: int)
    | OpReleaseAll(now: int)
    | OpClaim(a: Addr, now: int)
    | OpSlash(a: Addr, amount: nat)

  ghost function Step(st: State, op: Op): State {
    match op
    case OpVest(a, amount, now) => Vest(st, a, amount, now)
    case OpReleaseAll(now) => ReleaseOn(st, st.buckets.Keys, At(now))
    case OpClaim(a, now) => if a == "" then st else ReleaseOn(st, KeysOf(st, a), At(now))
    case OpSlash(a, amount) => Slash(st, a, amount)
  }

  /** A vested amount must fit: the supply is below 2^64, so this is what the chain relies on. */
  ghost predicate Fits(st: State, op: Op) {
    op.OpVest? ==> var acc := AccountOf(st.accounts, op.a);
      && acc.balance + acc.pending + op.amount <= MAX_U64
      && ((op.a, DayStart(op.now)) in st.buckets ==>
            st.buckets[(op.a, DayStart(op.now))].total + op.amount <= MAX_U64)
  }

  lemma VestKeepsInv(st: State, a: Addr, amount: nat, now: int)
    requires Inv(st) && Fits(st, OpVest(a, amount, now))
    ensures Inv(Vest(st, a, amount, now))
  {
    if amount != 0 && a != "" {
      var key := (a, DayStart(now));
      var end := Vest(st, a, amount, now);
      forall c ensures AccountOf(end.accounts, c).pending == Sum(end.buckets, UnreleasedOf(c)) {
        SumPut(st.buckets, UnreleasedOf(c), key, end.buckets[key]);
        assert AccountOf(st.accounts, c).pending == Sum(st.buckets, UnreleasedOf(c));
      }
    }
  }

  lemma {:induction false} ReleaseMovesSum(m: map<Key, Bucket>, done: set<Key>, rule: Rule, c: Addr)
    requires Sound(rule) && forall k | k in m :: m[k].released < m[k].total
    ensures Sum(BucketsAfter(m, done, rule), UnreleasedOf(c))
            == Sum(m, UnreleasedOf(c)) - Sum(Restrict(m, done), ReleaseOf(c, rule))
    decreases m.Keys
  {
    if m.Keys == {} {
      SumEmpty(m, UnreleasedOf(c));
      SumEmpty(BucketsAfter(m, done, rule), UnreleasedOf(c));
      SumEmpty(Restrict(m, done), ReleaseOf(c, rule));
    } else {
      var k :| k in m.Keys;
      SumPick(m, UnreleasedOf(c), k);
      ReleaseMovesSum(m - {k}, done, rule, c);
      AfterWithout(m, done, rule, c, k);
      if k in done {
        SumPick(Restrict(m, done), ReleaseOf(c, rule), k);
        assert Restrict(m, done) - {k} == Restrict(m - {k}, done);
      } else {
        assert Restrict(m, done) == Restrict(m - {k}, done);
      }
    }
  }

  lemma AfterWithout(m: map<Key, Bucket>, done: set<Key>, rule: Rule, c: Addr, k: Key)
    requires Sound(rule) && k in m && m[k].released < m[k].total
    ensures Sum(BucketsAfter(m, done, rule), UnreleasedOf(c)) == Sum(BucketsAfter(m - {k}, done, rule), UnreleasedOf(c))
            + UnreleasedOf(c)(k, if k in done then Advanced(m[k], rule) else m[k])
  {
    var after := BucketsAfter(m, done, rule);
    assert after - {k} == BucketsAfter(m - {k}, done, rule);
    if k in after {
      SumPick(after, UnreleasedOf(c), k);
    } else {
      assert after - {k} == after;
    }
  }

  /** Releasing moves tokens from pending to balance inside each account and nowhere else. */
  lemma ReleaseKeepsInv(st: State, done: set<Key>, rule: Rule)
    requires Inv(st) && Sound(rule)
    ensures Inv(ReleaseOn(st, done, rule))
    ensures forall a | a in st.accounts :: var x, y := st.accounts[a], ReleaseOn(st, done, rule).accounts[a];
              y.balance + y.pending == x.balance + x.pending && x.balance <= y.balance
  {
    var end := ReleaseOn(st, done, rule);
    forall c ensures AccountOf(end.accounts, c).pending == Sum(end.buckets, UnreleasedOf(c)) {
      ReleaseMovesSum(st.buckets, done, rule, c);
      ReleasableIsPending(st, done, c, rule);
    }
    forall a | a in st.accounts ensures var x, y := st.accounts[a], end.accounts[a];
              y.balance + y.pending == x.balance + x.pending && x.balance <= y.balance
    {
      ReleasableIsPending(st, done, a, rule);
    }
  }

  /** A slash takes exactly what it reports out of the account's buckets. */
  lemma SlashKeepsInv(st: State, a: Addr, amount: nat)
    requires Inv(st)
    ensures Inv(Slash(st, a, amount))
    ensures Sum(Slash(st, a, amount).buckets, UnreleasedOf(a))
            == Sum(st.buckets, UnreleasedOf(a)) - Min(amount, AccountOf(st.accounts, a).pending)
  {
    var acc := AccountOf(st.accounts, a);
    var s := Min(amount, acc.pending);
    if s != 0 {
      forall c ensures AccountOf(Slash(st, a, amount).accounts, c).pending
                       == Sum(Slashed(st.buckets, a, s), UnreleasedOf(c))
      {
        CutsAddUp(st.buckets, a, s, c);
        assert AccountOf(st.accounts, c).pending == Sum(st.buckets, UnreleasedOf(c));
      }
    }
  }

  lemma StepKeepsInv(st: State, op: Op)
    requires Inv(st) && Fits(st, op)
    ensures Inv(Step(st, op))
  {
    match op
    case OpVest(a, amount, now) => VestKeepsInv(st, a, amount, now);
    case OpReleaseAll(now) => ReleaseKeepsInv(st, st.buckets.Keys, At(now));
    case OpClaim(a, now) => ReleaseKeepsInv(st, KeysOf(st, a), At(now));
    case OpSlash(a, amount) => SlashKeepsInv(st, a, amount);
  }

  ghost function Run(st: State, ops: seq<Op>): State
    decreases |ops|
  {
    if ops == [] then st else Run(Step(st, ops[0]), ops[1..])
  }

  ghost predicate RunFits(st: State, ops: seq<Op>)
    decreases |ops|
  {
    ops == [] || (Fits(st, ops[0]) && RunFits(Step(st, ops[0]), ops[1..]))
  }

  /** Over any run of vests, releases, claims and slashes, pending counters equal what the
      buckets still hold and every stored bucket is live. */
  lemma {:induction false} RunKeepsInv(st: State, ops: seq<Op>)
    requires Inv(st) && RunFits(st, ops)
    ensures Inv(Run(st, ops))
    decreases |ops|
  {
    if ops != [] {
      StepKeepsInv(st, ops[0]);
      RunKeepsInv(Step(st, ops[0]), ops[1..]);
    }
  }

  /** Once the vesting period has passed, a release empties and removes the bucket, slashed or not. */
  lemma FullyVestedIsRemoved(st: State, k: Key, now: int)
    requires Inv(st) && k in st.buckets && st.buckets[k].day != 0
    requires now >= st.buckets[k].day + VESTING_DAYS * DAY_SECONDS
    ensures k !in Step(st, OpReleaseAll(now)).buckets && k !in Step(st, OpClaim(st.buckets[k].address, now)).buckets
    ensures Releasable(st.buckets[k], now) == Unreleased(st.buckets[k])
  {
    var b := st.buckets[k];
    FloorAbove(now - b.day, DAY_SECONDS, VESTING_DAYS);
  }

  // ---------------------------------------------------------------- the rate, in days and units

  /** `d` whole days have passed at `now` since the day `day`. */
  ghost predicate DaysSince(day: int, d: int, now: int) { day + d * 86_400 <= now < day + (d + 1) * 86_400 }

  /** What a bucket has released after one more claim: with `d` whole days passed, the larger of what it
      had released before and the `d` ninetieths of its total, rounded down (`r`; the product wraps). */
  lemma ClaimReleases(b: Bucket, d: int, now: int, r: nat)
    requires b.released <= b.total && 0 < b.day && 0 <= d < 90 && DaysSince(b.day, d, now)
    requires 90 * r <= b.total * d % TWO64 < 90 * (r + 1)
    ensures Advanced(b, At(now)).released == if b.released >= r then b.released else r
    ensures b.total > 0 ==> r < b.total
  {
    DaysAre(b.day, d, now);
    TargetIs(b.total, d, r);
    if d == 0 {
      assert b.total * d == 0;
    } else if r >= b.total && b.total > 0 {
      WrapIsBelow(b.total * d);
      MulMono(b.total, d, 89);
    }
  }

  lemma DaysAre(day: int, d: int, now: int)
    requires 0 < day && 0 <= d < 90 && DaysSince(day, d, now)
    ensures ElapsedDays(day, now) == d
  {
    assert (now - day) / 86_400 == d;
  }

  lemma TargetIs(total: nat, d: int, r: nat)
    requires 0 <= d < 90 && 90 * r <= total * d % TWO64 < 90 * (r + 1)
    ensures Target(total, d) == r
  {
    QuotientIs(total * d % TWO64, 90, r);
  }

  /** Claiming, and the release pass, bring every bucket of the account to that mark. */
  lemma ClaimPaysByDay(st: State, k: Key, op: Op, d: int, now: int, r: nat)
    requires Inv(st) && k in st.buckets && op in {OpReleaseAll(now), OpClaim(st.buckets[k].address, now)}
    requires var b := st.buckets[k];
             && 0 < b.day && 0 <= d < 90 && DaysSince(b.day, d, now) && b.total * 89 < TWO64
             && 90 * r <= b.total * d < 90 * (r + 1)
    ensures var b, end := st.buckets[k], Step(st, op).buckets;
            k in end && end[k] == b.(released := if b.released >= r then b.released else r)
  {
    var b := st.buckets[k];
    MulMono(b.total, d, 89);
    ClaimReleases(b, d, now, r);
  }

  /** Ninety days on the bucket is paid out and gone; on its first day, or for a bucket dated zero,
      nothing is released. */
  lemma VestingEnds(st: State, k: Key, op: Op, now: int)
    requires Inv(st) && k in st.buckets && op in {OpReleaseAll(now), OpClaim(st.buckets[k].address, now)}
    ensures st.buckets[k].day != 0 && now >= st.buckets[k].day + 7_776_000 ==> k !in Step(st, op).buckets
    ensures st.buckets[k].day == 0 || now < st.buckets[k].day + 86_400
            ==> k in Step(st, op).buckets && Step(st, op).buckets[k] == st.buckets[k]
  {
    if st.buckets[k].day != 0 && now >= st.buckets[k].day + 7_776_000 { FullyVestedIsRemoved(st, k, now); }
  }

  /** A claim pays its account what its buckets release, and no one else anything. */
  lemma ClaimPaysOwner(st: State, a: Addr, now: int, c: Addr)
    requires Inv(st) && a != ""
    ensures var before, end := AccountOf(st.accounts, c), Step(st, OpClaim(a, now));
            var after := AccountOf(end.accounts, c);
            && after.balance + after.pending == before.balance + before.pending
            && after.pending == Sum(end.buckets, UnreleasedOf(c))
            && (c != a ==> after == before)
  {
    ReleaseKeepsInv(st, KeysOf(st, a), At(now));
    ReleasableIsPending(st, KeysOf(st, a), c, At(now));
    if c != a { SumZero(Restrict(st.buckets, KeysOf(st, a)), ReleaseOf(c, At(now))); }
  }

  /** A reward is added to the bucket of its day, in whole days of 86400 seconds, and to the pending counter. */
  lemma RewardIsDated(st: State, a: Addr, amount: nat, now: int, n: nat)
    requires Inv(st) && amount > 0 && a != "" && Fits(st, OpVest(a, amount, now))
    requires if now <= 0 then n == 0 else DaysSince(0, n, now)
    ensures var key, end := (a, n * 86_400), Step(st, OpVest(a, amount, now));
            && key in end.buckets && end.buckets == st.buckets[key := end.buckets[key]]
            && (key in st.buckets ==> end.buckets[key] == st.buckets[key].(total := st.buckets[key].total + amount))
            && (key !in st.buckets && amount <= MAX_U64 ==> end.buckets[key] == Bucket(a, n * 86_400, amount, 0))
            && end.accounts == st.accounts[a := AccountOf(st.accounts, a).(pending := AccountOf(st.accounts, a).pending + amount)]
  {
    assert DayStart(now) == n * 86_400;
  }

  // ---------------------------------------------------------------- claim schedules

  function ClaimAll(b: Bucket, times: seq<int>): Bucket
    decreases |times|
  {
    if times == [] then b else ClaimAll(Advanced(b, At(times[0])), times[1..])
  }

  predicate Nondecreasing(times: seq<int>) { forall i, j | 0 <= i < j < |times| :: times[i] <= times[j] }

  /** Every schedule of claims ends where a single claim at its last time would. */
  ghost predicate ScheduleIndependent(total: nat, day: int) {
    forall times: seq<int> | times != [] && Nondecreasing(times) ::
      ClaimAll(Bucket("", day, total, 0), times).released == Releasable(Bucket("", day, total, 0), times[|times| - 1])
  }

  lemma TargetMonotone(total: nat, d: int, e: int)
    requires 0 <= d <= e <= VESTING_DAYS && total * 89 < TWO64
    ensures Target(total, d) <= Target(total, e)
  {
    if e < VESTING_DAYS {
      MulMono(total, d, e);
      MulMono(total, e, 89);
      DivMono(total * d, total * e, 90);
    }
  }

  lemma ElapsedMonotone(day: int, s: int, t: int)
    requires s <= t
    ensures ElapsedDays(day, s) <= ElapsedDays(day, t)
  {
    if day != 0 && s > day { DivMono(s - day, t - day, DAY_SECONDS); }
  }

  lemma {:induction false} SmallTotalsClaimAlike(b: Bucket, times: seq<int>)
    requires b.total * 89 < TWO64 && times != [] && Nondecreasing(times)
    requires b.released <= Target(b.total, ElapsedDays(b.day, times[0]))
    ensures ClaimAll(b, times).released == Target(b.total, ElapsedDays(b.day, times[|times| - 1]))
    decreases |times|
  {
    var n := Advanced(b, At(times[0]));
    assert n.released == Target(b.total, ElapsedDays(b.day, times[0])) by {
      if ElapsedDays(b.day, times[0]) == 0 { assert WrapMul(b.total, 0) == 0; }
    }
    if |times| > 1 {
      ElapsedMonotone(b.day, times[0], times[1]);
      TargetMonotone(b.total, ElapsedDays(b.day, times[0]), ElapsedDays(b.day, times[1]));
      SmallTotalsClaimAlike(n, times[1..]);
    } else {
      assert ClaimAll(n, times[1..]) == n;
    }
  }

  /** Two claims, on days `d` and `e`, keep the larger of the two targets. */
  lemma TwoClaims(total: nat, day: int, d: int, e: int)
    requires 0 < d < e < VESTING_DAYS && 0 < day && 0 < total
    requires Target(total, e) < Target(total, d)
    ensures !ScheduleIndependent(total, day)
  {
    var b := Bucket("", day, total, 0);
    var times := [day + d * DAY_SECONDS, day + e * DAY_SECONDS];
    assert ElapsedDays(day, times[0]) == d && ElapsedDays(day, times[1]) == e;
    assert times[1..] == [times[1]] && times[1..][1..] == [];
    var n := Advanced(b, At(times[0]));
    assert n.released == Target(total, d);
    assert Advanced(n, At(times[1])) == n;
    assert ClaimAll(b, times) == ClaimAll(n, [times[1]]) == ClaimAll(n, []) == n;
    assert Releasable(b, times[1]) == Target(total, e);
  }

  lemma WrapOnce(x: nat)
    requires TWO64 <= x < 2 * TWO64
    ensures x % TWO64 == x - TWO64
  {
  }

  /** Within 90 of 2^64, each further day loses `gap`, which the floor shows between days 1 and 89. */
  lemma NearTotalsDrop(total: nat, gap: nat)
    requires 0 < gap < 90 && total == TWO64 - gap
    ensures Target(total, 89) < Target(total, 1)
  {
    var x := TWO64 - 89 * gap;
    assert total * 89 == 88 * TWO64 + x;
    assert WrapMul(total, 89) == x;
    assert WrapMul(total, 1) == total;
  }

  /** On the first day the product wraps, the target falls by at least 90 / 90. */
  lemma FirstWrapDrops(total: nat, d: nat)
    requires total + 90 <= TWO64 && 0 < d < 89
    requires total * d < TWO64 <= total * (d + 1)
    ensures Target(total, d + 1) < Target(total, d)
  {
    var low := total * (d + 1) - TWO64;
    assert total * (d + 1) == total * d + total;
    WrapOnce(total * (d + 1));
    DivMono(low + 90, total * d, 90);
    assert (low + 90) / 90 == low / 90 + 1;
  }

  /** Past 2^64 / 89 the wrapped product drops on some day, and splitting a claim there pays more. */
  lemma LargeTotalsDrop(total: nat) returns (d: int, e: int)
    requires total < TWO64 <= total * 89
    ensures 0 < d < e < VESTING_DAYS && Target(total, e) < Target(total, d)
  {
    var gap := TWO64 - total;
    if gap < 90 {
      d, e := 1, 89;
      NearTotalsDrop(total, gap);
    } else {
      d := (TWO64 - 1) / total;
      e := d + 1;
      FirstWrapDay(total, d);
      FirstWrapDrops(total, d);
    }
  }

  lemma FirstWrapDay(total: nat, d: int)
    requires 0 < total < TWO64 <= total * 89 && d == (TWO64 - 1) / total
    ensures 0 < d < 89 && total * d < TWO64 <= total * (d + 1)
  {
    DivisionLaw(TWO64 - 1, total);
    FloorAbove(TWO64 - 1, total, 1);
    if d >= 89 { MulMono(total, 89, d); }
    assert total * (d + 1) == total * d + total;
  }

  /** Claim times do not matter exactly when the bucket's total times 89 fits in 64 bits. */
  lemma SchedulesAgreeExactly(total: nat, day: int)
    requires total < TWO64 && 0 < day
    ensures ScheduleIndependent(total, day) <==> total * 89 < TWO64
  {
    if total * 89 < TWO64 {
      forall times: seq<int> | times != [] && Nondecreasing(times)
        ensures ClaimAll(Bucket("", day, total, 0), times).released
                == Releasable(Bucket("", day, total, 0), times[|times| - 1])
      {
        SmallTotalsClaimAlike(Bucket("", day, total, 0), times);
        if ElapsedDays(day, times[|times| - 1]) == 0 { assert WrapMul(total, 0) == 0; }
      }
    } else {
      var d, e := LargeTotalsDrop(total);
      TwoClaims(total, day, d, e);
    }
  }

  // ---------------------------------------------------------------- slashing along a sorted walk

  /** The closed form of a slash, applied to the buckets `done` only. */
  ghost function SlashedOn(m: map<Key, Bucket>, a: Addr, s: int, done: set<Key>): map<Key, Bucket> {
    map k | k in m && (k in done ==> Cut(m, a, s, m[k]) < Unreleased(m[k])) ::
      if k in done then ReducedBy(m[k], Cut(m, a, s, m[k])) else m[k]
  }

  ghost function TakenBy(m: map<Key, Bucket>, a: Addr, done: set<Key>): int {
    Sum(Restrict(m, done), UnreleasedOf(a))
  }

  /** The buckets of `a` that have come up before `k` on a walk by day are exactly the older ones. */
  lemma OlderIsTaken(m: map<Key, Bucket>, a: Addr, done: set<Key>, day: int)
    requires forall k | k in m && m[k].address == a :: k in done <==> m[k].day < day
    ensures Sum(m, OlderOf(a, day)) == TakenBy(m, a, done)
  {
    SumSplit(m, done, OlderOf(a, day));
    SumZero(m - done, OlderOf(a, day));
    SumCongruent(Restrict(m, done), OlderOf(a, day), Restrict(m, done), UnreleasedOf(a));
  }

  lemma YoungerSeesMore(m: map<Key, Bucket>, a: Addr, done: set<Key>, day: int)
    requires forall k | k in m :: m[k].released < m[k].total
    requires forall k | k in m && k in done && m[k].address == a :: m[k].day < day
    ensures TakenBy(m, a, done) <= Sum(m, OlderOf(a, day))
  {
    SumSplit(m, done, OlderOf(a, day));
    SumNonNegative(m - done, OlderOf(a, day));
    SumCongruent(Restrict(m, done), OlderOf(a, day), Restrict(m, done), UnreleasedOf(a));
  }

  /** Once the slash is used up, the buckets not yet reached keep everything. */
  lemma ExhaustedSlashIsDone(m: map<Key, Bucket>, a: Addr, s: int, done: set<Key>)
    requires forall k | k in m :: m[k].released < m[k].total
    requires forall k, j | k in m && j in m && k in done && j !in done && m[k].address == a == m[j].address :: m[k].day < m[j].day
    requires s <= TakenBy(m, a, done) || forall k | k in m && m[k].address == a :: k in done
    ensures SlashedOn(m, a, s, done) == Slashed(m, a, s)
  {
    forall k | k in m && k !in done ensures Cut(m, a, s, m[k]) == 0 {
      if m[k].address == a { YoungerSeesMore(m, a, done, m[k].day); }
    }
    assert forall k | k in m && k !in done :: ReducedBy(m[k], 0) == m[k];
  }

  lemma SlashOneExtends(m: map<Key, Bucket>, a: Addr, s: nat, done: set<Key>, k: Key)
    requires k in m && k !in done && m[k].address == a && m[k].released < m[k].total
    requires forall j | j in m && m[j].address == a :: j in done <==> m[j].day < m[k].day
    ensures Cut(m, a, s, m[k]) == Clamp(s - TakenBy(m, a, done), Unreleased(m[k]))
    ensures TakenBy(m, a, done + {k}) == TakenBy(m, a, done) + Unreleased(m[k])
    ensures var mid, cut := SlashedOn(m, a, s, done), Cut(m, a, s, m[k]);
            && k in mid && mid[k] == m[k]
            && SlashedOn(m, a, s, done + {k}) == Deduct(mid, k, cut)
  {
    OlderIsTaken(m, a, done, m[k].day);
    RestrictGrows(m, done, k, UnreleasedOf(a));
  }

  predicate ByDay(s: seq<Key>) { forall i, j | 0 <= i < j < |s| :: s[i].1 <= s[j].1 }

  lemma SwapKeepsWalk(s: seq<Key>, j: nat, m: map<Key, Bucket>)
    requires 0 < j < |s| && Enumerates(s, m)
    ensures Enumerates(s[j := s[j - 1]][j - 1 := s[j]], m)
  {
    var t := s[j := s[j - 1]][j - 1 := s[j]];
    forall k ensures k in s <==> k in t {
      if k in s {
        var i :| 0 <= i < |s| && s[i] == k;
        assert k == t[if i == j then j - 1 else if i == j - 1 then j else i];
      }
      if k in t {
        var i :| 0 <= i < |t| && t[i] == k;
        assert k == s[if i == j then j - 1 else if i == j - 1 then j else i];
      }
    }
    assert Stops(s) == Stops(t);
  }

  /** The in-place insertion sort by day. */
  method SortByDay(entries: array<Key>, ghost m: map<Key, Bucket>)
    requires Enumerates(entries[..], m)
    modifies entries
    ensures Enumerates(entries[..], m) && ByDay(entries[..])
  {
    var i := 1;
    while i < entries.Length
      invariant 1 <= i
      invariant Enumerates(entries[..], m)
      invariant forall p, q | 0 <= p < q < i && q < entries.Length :: entries[p].1 <= entries[q].1
    {
      var j := i;
      while j > 0 && entries[j].1 < entries[j - 1].1
        invariant 0 <= j <= i < entries.Length
        invariant Enumerates(entries[..], m)
        invariant forall p, q | 0 <= p < q <= i && q != j :: entries[p].1 <= entries[q].1
      {
        SwapKeepsWalk(entries[..], j, m);
        ghost var before := entries[..];
        entries[j], entries[j - 1] := entries[j - 1], entries[j];
        assert entries[..] == before[j := before[j - 1]][j - 1 := before[j]];
        j := j - 1;
      }
      i := i + 1;
    }
  }

  // ---------------------------------------------------------------- the store

  class VestingLedger {
    var accounts: map<Addr, Account>
    var buckets: map<Key, Bucket>

    ghost function View(): State
      reads this
    {
      State(accounts, buckets)
    }

    constructor ()
      ensures View() == State(map[], map[]) && Inv(View())
    {
      accounts, buckets := map[], map[];
      new;
      forall a ensures Sum(buckets, UnreleasedOf(a)) == 0 { SumEmpty(buckets, UnreleasedOf(a)); }
    }

    method VestReward(a: Addr, amount: nat, now: int) returns (vested: nat)
      requires Inv(View()) && Fits(View(), OpVest(a, amount, now))
      modifies this
      ensures View() == Step(old(View()), OpVest(a, amount, now)) && Inv(View())
      ensures vested == if a == "" then 0 else amount
    {
      VestKeepsInv(View(), a, amount, now);
      if amount == 0 || a == "" { return 0; }
      var key := (a, DayStart(now));
      var bucket := if key in buckets then buckets[key] else Bucket(a, DayStart(now), 0, 0);
      bucket := bucket.(total := SatAdd(bucket.total, amount));
      buckets := buckets[key := bucket];
      var account := AccountOf(accounts, a);
      account := account.(pending := SatAdd(account.pending, amount));
      accounts := accounts[a := account];
      return amount;
    }

    /** One turn of the release loop on the bucket stored under `k`. */
    method ReleaseBucket(k: Key, now: int) returns (release: nat)
      requires k in buckets
      modifies this
      ensures View() == ReleaseOne(old(View()), k, At(now))
    {
      var bucket := buckets[k];
      release := Releasable(bucket, now);
      if release == 0 { return; }
      var account := AccountOf(accounts, bucket.address);
      if account.pending < release { release := account.pending; }
      if release == 0 { return; }
      account := Account(SatAdd(account.balance, release), account.pending - release);
      accounts := accounts[bucket.address := account];
      bucket := bucket.(released := SatAdd(bucket.released, release));
      if bucket.released >= bucket.total {
        buckets := buckets - {k};
      } else {
        buckets := buckets[k := bucket];
      }
    }

    /** Releases every bucket, in whatever order the map yields them. */
    method ReleaseVested(now: int)
      requires Inv(View())
      modifies this
      ensures View() == Step(old(View()), OpReleaseAll(now)) && Inv(View())
    {
      ghost var start := View();
      var todo := buckets.Keys;
      ghost var done: set<Key> := {};
      NothingReleased(start, At(now));
      while todo != {}
        invariant done == start.buckets.Keys - todo && todo <= start.buckets.Keys
        invariant View() == ReleaseOn(start, done, At(now))
      {
        var k :| k in todo;
        ReleaseOneExtends(start, done, k, At(now));
        var _ := ReleaseBucket(k, now);
        todo, done := todo - {k}, done + {k};
      }
      assert done == start.buckets.Keys;
      ReleaseKeepsInv(start, start.buckets.Keys, At(now));
    }

    /** Releases the buckets of one address and skips the others. */
    method Claim(a: Addr, now: int)
      requires Inv(View())
      modifies this
      ensures View() == Step(old(View()), OpClaim(a, now)) && Inv(View())
    {
      if a == "" { return; }
      ghost var start := View();
      var todo := buckets.Keys;
      ghost var done: set<Key> := {};
      NothingReleased(start, At(now));
      while todo != {}
        invariant done == KeysOf(start, a) - todo && todo <= start.buckets.Keys
        invariant View() == ReleaseOn(start, done, At(now))
      {
        var k :| k in todo;
        ReleaseOneExtends(start, done, k, At(now));
        if buckets[k].address == a {
          var _ := ReleaseBucket(k, now);
          done := done + {k};
        }
        todo := todo - {k};
      }
      assert done == KeysOf(start, a);
      ReleaseKeepsInv(start, KeysOf(start, a), At(now));
    }

    /** Collects the keys of one address in whatever order the map yields them. */
    method Collect(a: Addr) returns (entries: seq<Key>)
      ensures Enumerates(entries, Restrict(buckets, KeysOf(View(), a)))
    {
      entries := [];
      var todo := buckets.Keys;
      while todo != {}
        invariant todo <= buckets.Keys
        invariant Stops(entries) == KeysOf(View(), a) - todo
        invariant forall i, j | 0 <= i < j < |entries| :: entries[i] != entries[j]
      {
        var k :| k in todo;
        assert forall i | 0 <= i < |entries| :: entries[i] in Stops(entries);
        if buckets[k].address == a {
          assert Stops(entries + [k]) == Stops(entries) + {k};
          entries := entries + [k];
        }
        todo := todo - {k};
      }
    }

    /** Deducts up to `amount` from the unreleased rewards of `a`, oldest bucket first. */
    method SlashVesting(a: Addr, amount: nat) returns (taken: nat)
      requires Inv(View())
      modifies this
      ensures View() == Step(old(View()), OpSlash(a, amount)) && Inv(View())
      ensures taken == Min(amount, AccountOf(old(accounts), a).pending)
    {
      SlashKeepsInv(View(), a, amount);
      var account := AccountOf(accounts, a);
      taken := Min(amount, account.pending);
      if taken == 0 { return; }
      accounts := accounts[a := account.(pending := account.pending - taken)];
      var found := Collect(a);
      var entries := new Key[|found|](i requires 0 <= i < |found| => found[i]);
      assert entries[..] == found;
      SortByDay(entries, Restrict(buckets, KeysOf(View(), a)));
      DeductInOrder(a, taken, entries[..]);
    }

    /** Takes what it can of `due` out of one bucket and returns what is still due. */
    method DeductBucket(k: Key, due: nat) returns (remaining: nat)
      requires k in buckets && buckets[k].released < buckets[k].total
      modifies this`buckets
      ensures var b := old(buckets)[k];
              var cut := Clamp(due, Unreleased(b));
              && remaining == due - cut
              && buckets == Deduct(old(buckets), k, cut)
    {
      var b := buckets[k];
      var slash := Min(due, b.total - b.released);
      b := b.(total := b.total - slash);
      remaining := due - slash;
      if b.total <= b.released {
        buckets := buckets - {k};
      } else {
        buckets := buckets[k := b];
      }
    }

    method DeductInOrder(a: Addr, taken: nat, entries: seq<Key>)
      requires WalkOf(buckets, a, entries) && AllLive(buckets)
      modifies this`buckets
      ensures buckets == Slashed(old(buckets), a, taken)
    {
      ghost var start := buckets;
      var remaining := taken;
      var i := 0;
      assert entries[0..] == entries;
      while i < |entries| && remaining > 0
        invariant 0 <= i <= |entries| && AllLive(buckets)
        invariant DeductWalk(buckets, remaining, entries[i..]) == DeductWalk(start, taken, entries)
      {
        var k := entries[i];
        assert entries[i..][0] == k && entries[i..][1..] == entries[i + 1..];
        if k in buckets {
          remaining := DeductBucket(k, remaining);
        }
        i := i + 1;
      }
      DeductWalkSlashes(start, a, taken, entries);
    }
  }

  function Deduct(m: map<Key, Bucket>, k: Key, cut: int): map<Key, Bucket>
    requires k in m
  {
    if cut < Unreleased(m[k]) then m[k := ReducedBy(m[k], cut)] else m - {k}
  }

  /** Deducting bucket after bucket along a walk. */
  function DeductWalk(m: map<Key, Bucket>, due: nat, entries: seq<Key>): map<Key, Bucket>
    decreases |entries|
  {
    if entries == [] || due == 0 then m
    else if entries[0] !in m then DeductWalk(m, due, entries[1..])
    else
      var cut := Clamp(due, Unreleased(m[entries[0]]));
      if 0 <= cut <= due then DeductWalk(Deduct(m, entries[0], cut), due - cut, entries[1..]) else m
  }

  ghost function DeductedUpTo(m: map<Key, Bucket>, a: Addr, s: nat, entries: seq<Key>, i: nat): map<Key, Bucket>
    requires i <= |entries|
  {
    SlashedOn(m, a, s, Stops(entries[..i]))
  }

  ghost function DueAfter(m: map<Key, Bucket>, a: Addr, s: nat, entries: seq<Key>, i: nat): nat
    requires i <= |entries|
  {
    Due(s, TakenBy(m, a, Stops(entries[..i])))
  }

  function Due(s: nat, t: int): nat { if s <= t then 0 else s - t }

  lemma DueStep(s: nat, t: nat, u: nat)
    ensures Clamp(Due(s, t), u) == Clamp(s - t, u)
    ensures Due(s, t + u) == Due(s, t) - Clamp(s - t, u)
  {
  }

  lemma DeductStart(m: map<Key, Bucket>, a: Addr, s: nat, entries: seq<Key>)
    ensures DeductedUpTo(m, a, s, entries, 0) == m && DueAfter(m, a, s, entries, 0) == s
  {
    SumEmpty(Restrict(m, Stops(entries[..0])), UnreleasedOf(a));
  }

  lemma DeductStep(m: map<Key, Bucket>, a: Addr, s: nat, entries: seq<Key>, i: nat)
    requires WalkOf(m, a, entries) && AllLive(m) && i < |entries|
    ensures var k := entries[i];
            var mid, due := DeductedUpTo(m, a, s, entries, i), DueAfter(m, a, s, entries, i);
            && k in m && k in mid && mid[k] == m[k]
            && var cut := Clamp(due, Unreleased(m[k]));
            && DueAfter(m, a, s, entries, i + 1) == due - cut
            && DeductedUpTo(m, a, s, entries, i + 1) == Deduct(mid, k, cut)
  {
    var k, done := entries[i], Stops(entries[..i]);
    ReachedInOrder(m, a, s, entries, i);
    SumNonNegative(Restrict(m, done), UnreleasedOf(a));
    DueStep(s, TakenBy(m, a, done), Unreleased(m[k]));
  }

  lemma ReachedInOrder(m: map<Key, Bucket>, a: Addr, s: nat, entries: seq<Key>, i: nat)
    requires WalkOf(m, a, entries) && AllLive(m) && i < |entries|
    ensures var k, done := entries[i], Stops(entries[..i]);
            && k in m && Live(m[k])
            && Stops(entries[..i + 1]) == done + {k}
            && TakenBy(m, a, done + {k}) == TakenBy(m, a, done) + Unreleased(m[k])
            && var mid := SlashedOn(m, a, s, done);
            && k in mid && mid[k] == m[k]
            && SlashedOn(m, a, s, done + {k}) == Deduct(mid, k, Clamp(s - TakenBy(m, a, done), Unreleased(m[k])))
  {
    var k, done := entries[i], Stops(entries[..i]);
    WalkIsByAge(m, a, entries, i);
    SlashOneExtends(m, a, s, done, k);
    StopsExtend(entries, i);
  }

  lemma StopsExtend(entries: seq<Key>, i: nat)
    requires i < |entries|
    ensures Stops(entries[..i + 1]) == Stops(entries[..i]) + {entries[i]}
  {
    assert entries[..i + 1] == entries[..i] + [entries[i]];
  }

  /** Along a walk of the account's buckets by day, deducting one after the other is the closed form. */
  lemma DeductWalkSlashes(m: map<Key, Bucket>, a: Addr, s: nat, entries: seq<Key>)
    requires WalkOf(m, a, entries) && AllLive(m)
    ensures DeductWalk(m, s, entries) == Slashed(m, a, s)
  {
    DeductStart(m, a, s, entries);
    assert entries[0..] == entries;
    DeductRest(m, a, s, entries, 0);
  }

  lemma {:induction false} DeductRest(m: map<Key, Bucket>, a: Addr, s: nat, entries: seq<Key>, i: nat)
    requires WalkOf(m, a, entries) && AllLive(m) && i <= |entries|
    ensures DeductWalk(DeductedUpTo(m, a, s, entries, i), DueAfter(m, a, s, entries, i), entries[i..]) == Slashed(m, a, s)
    decreases |entries| - i
  {
    if i == |entries| || DueAfter(m, a, s, entries, i) == 0 {
      DeductEnd(m, a, s, entries, i);
    } else {
      DeductStep(m, a, s, entries, i);
      DeductRest(m, a, s, entries, i + 1);
      assert entries[i..][0] == entries[i] && entries[i..][1..] == entries[i + 1..];
    }
  }

  lemma DeductEnd(m: map<Key, Bucket>, a: Addr, s: nat, entries: seq<Key>, i: nat)
    requires WalkOf(m, a, entries) && AllLive(m) && i <= |entries|
    requires i == |entries| || DueAfter(m, a, s, entries, i) == 0
    ensures DeductedUpTo(m, a, s, entries, i) == Slashed(m, a, s)
  {
    WalkPrefixIsOlder(m, a, entries, i);
    ExhaustedSlashIsDone(m, a, s, Stops(entries[..i]));
  }

  lemma NothingReleased(st: State, rule: Rule)
    ensures ReleaseOn(st, {}, rule) == st
  {
    forall a ensures Sum(Restrict(st.buckets, {}), ReleaseOf(a, rule)) == 0 {
      SumEmpty(Restrict(st.buckets, {}), ReleaseOf(a, rule));
    }
  }

  ghost predicate AllLive(m: map<Key, Bucket>) { forall k | k in m :: Live(m[k]) }

  ghost predicate WalkOf(m: map<Key, Bucket>, a: Addr, entries: seq<Key>) {
    && (forall k | k in m :: k == (m[k].address, m[k].day))
    && Enumerates(entries, Restrict(m, set k | k in m && m[k].address == a))
    && ByDay(entries)
  }

  lemma WalkIsByAge(m: map<Key, Bucket>, a: Addr, entries: seq<Key>, i: nat)
    requires WalkOf(m, a, entries) && i < |entries|
    ensures entries[i] in m && entries[i] !in Stops(entries[..i]) && m[entries[i]].address == a
    ensures forall j | j in m && m[j].address == a :: j in Stops(entries[..i]) <==> m[j].day < m[entries[i]].day
  {
    assert entries[i] in Stops(entries);
    forall j | j in m && m[j].address == a ensures j in Stops(entries[..i]) <==> m[j].day < m[entries[i]].day {
      assert j in Stops(entries);
      var p :| 0 <= p < |entries| && entries[p] == j;
      if p < i { assert entries[..i][p] == j; }
    }
  }

  lemma WalkPrefixIsOlder(m: map<Key, Bucket>, a: Addr, entries: seq<Key>, i: nat)
    requires WalkOf(m, a, entries) && i <= |entries|
    ensures forall k, j | k in m && j in m && k in Stops(entries[..i]) && j !in Stops(entries[..i])
              && m[k].address == a == m[j].address :: m[k].day < m[j].day
    ensures i == |entries| ==> forall k | k in m && m[k].address == a :: k in Stops(entries[..i])
  {
    assert forall q | 0 <= q < i :: entries[q] == entries[..i][q];
    forall k, j | k in m && j in m && k in Stops(entries[..i]) && j !in Stops(entries[..i])
              && m[k].address == a == m[j].address ensures m[k].day < m[j].day
    {
      assert j in Stops(entries);
      var q :| 0 <= q < |entries| && entries[q] == j;
      var p :| 0 <= p < i && entries[p] == k;
    }
    if i == |entries| { assert entries[..i] == entries; }
  }
}
