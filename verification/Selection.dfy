/** Choosing a block's transactions from the mempool: already applied ones first, then, by
    priority, whatever continues its sender's nonces. */
module Selection {
  import opened Numbers
  import opened Mempool

  // ---------------------------------------------------------------- priority order

  /** Higher fee first, then sender, nonce, age and id. */
  predicate Before(t: Tx, u: Tx) {
    if t.fee != u.fee then t.fee > u.fee
    else if t.sender != u.sender then Lex(t.sender, u.sender)
    else if t.nonce != u.nonce then t.nonce < u.nonce
    else if t.created != u.created then t.created < u.created
    else Lex(t.id, u.id)
  }

  lemma BeforeTotal(t: Tx, u: Tx)
    ensures t.id == u.id || Before(t, u) || Before(u, t)
    ensures !(Before(t, u) && Before(u, t))
  {
    LexTotal(t.sender, u.sender);
    LexTotal(t.id, u.id);
  }

  lemma BeforeTransitive(t: Tx, u: Tx, v: Tx)
    requires Before(t, u) && Before(u, v)
    ensures Before(t, v)
  {
    LexTotal(t.sender, u.sender);
    if Lex(t.sender, u.sender) && Lex(u.sender, v.sender) { LexTransitive(t.sender, u.sender, v.sender); }
    if Lex(t.id, u.id) && Lex(u.id, v.id) { LexTransitive(t.id, u.id, v.id); }
    LexTotal(t.sender, v.sender);
    LexTotal(u.sender, v.sender);
  }

  predicate DistinctIds(s: seq<Tx>) { forall i, j | 0 <= i < j < |s| :: s[i].id != s[j].id }
  predicate Ordered(s: seq<Tx>) { forall i, j | 0 <= i < j < |s| :: Before(s[i], s[j]) }

  function Insert(tx: Tx, s: seq<Tx>): (r: seq<Tx>)
    ensures multiset(r) == multiset(s) + multiset{tx}
  {
    if s == [] || Before(tx, s[0]) then [tx] + s
    else
      assert s == [s[0]] + s[1..];
      [s[0]] + Insert(tx, s[1..])
  }

  /** The pending transactions in priority order. */
  function Sort(s: seq<Tx>): (r: seq<Tx>)
    ensures multiset(r) == multiset(s)
  {
    if s == [] then []
    else
      assert s == s[..|s| - 1] + [s[|s| - 1]];
      Insert(s[|s| - 1], Sort(s[..|s| - 1]))
  }

  lemma {:induction false} InsertOrdered(tx: Tx, s: seq<Tx>)
    requires Ordered(s) && forall t | t in s :: t.id != tx.id
    ensures Ordered(Insert(tx, s))
  {
    if s == [] {
    } else if Before(tx, s[0]) {
      forall j | 0 <= j < |s| ensures Before(tx, s[j]) {
        if j > 0 { BeforeTransitive(tx, s[0], s[j]); }
      }
    } else {
      BeforeTotal(tx, s[0]);
      InsertOrdered(tx, s[1..]);
      var r := Insert(tx, s[1..]);
      forall j | 0 <= j < |r| ensures Before(s[0], r[j]) {
        assert r[j] in multiset(r);
        assert r[j] == tx || r[j] in s[1..];
      }
    }
  }

  lemma {:induction false} SortOrdered(s: seq<Tx>)
    requires DistinctIds(s)
    ensures Ordered(Sort(s))
  {
    if s != [] {
      var rest, last := s[..|s| - 1], s[|s| - 1];
      SortOrdered(rest);
      forall t | t in Sort(rest) ensures t.id != last.id {
        assert t in multiset(Sort(rest));
        assert t in rest;
      }
      InsertOrdered(last, Sort(rest));
    }
  }

  lemma {:induction false} InsertDistinct(tx: Tx, s: seq<Tx>)
    requires DistinctIds(s) && forall t | t in s :: t.id != tx.id
    ensures DistinctIds(Insert(tx, s))
  {
    if s != [] && !Before(tx, s[0]) {
      InsertDistinct(tx, s[1..]);
      var r := Insert(tx, s[1..]);
      forall j | 0 <= j < |r| ensures s[0].id != r[j].id {
        assert r[j] in multiset(r);
        assert r[j] == tx || r[j] in s[1..];
      }
    }
  }

  lemma {:induction false} SortDistinct(s: seq<Tx>)
    requires DistinctIds(s)
    ensures DistinctIds(Sort(s))
  {
    if s != [] {
      var rest, last := s[..|s| - 1], s[|s| - 1];
      SortDistinct(rest);
      forall t | t in Sort(rest) ensures t.id != last.id {
        assert t in multiset(Sort(rest));
        assert t in rest;
      }
      InsertDistinct(last, Sort(rest));
    }
  }

  lemma HeadIsFirst(s: seq<Tx>, t: seq<Tx>)
    requires Ordered(s) && Ordered(t) && multiset(s) == multiset(t) && s != []
    ensures t != [] && s[0] == t[0]
  {
    assert s[0] in multiset(t);
    assert t[0] in multiset(s);
    assert s[0] in t && t[0] in s;
    BeforeTotal(s[0], t[0]);
  }

  /** Priority order is unique: it does not depend on the order of arrival. */
  lemma {:induction false} OrderIsUnique(s: seq<Tx>, t: seq<Tx>)
    requires Ordered(s) && Ordered(t) && multiset(s) == multiset(t)
    ensures s == t
  {
    if s == [] {
      if t != [] { HeadIsFirst(t, s); }
    } else {
      HeadIsFirst(s, t);
      assert s == [s[0]] + s[1..] && t == [t[0]] + t[1..];
      assert multiset(s[1..]) == multiset(s) - multiset{s[0]};
      assert multiset(t[1..]) == multiset(t) - multiset{t[0]};
      OrderIsUnique(s[1..], t[1..]);
    }
  }

  // ---------------------------------------------------------------- limits

  const DEFAULT_TARGET_BYTES: nat := 256 * 1024
  const DEFAULT_MAX_BYTES: nat := 1024 * 1024
  const DEFAULT_MAX_TXS: nat := 200
  const DEFAULT_TX_BYTES: nat := 16 * 1024
  const DEFAULT_METADATA_BYTES: nat := 128 * 1024

  datatype Limits = Limits(targetBytes: nat, maxBytes: nat, maxTxs: nat, txBytes: nat, metadataBytes: nat)

  function Or(x: nat, y: nat): nat { if x == 0 then y else x }

  /** Configured limits with defaults for zeroes; neither byte limit exceeds the default maximum. */
  function BlockLimits(c: Limits): (l: Limits)
    ensures 0 < l.targetBytes <= l.maxBytes <= DEFAULT_MAX_BYTES && l.maxTxs > 0
  {
    var max := Min(Or(c.maxBytes, DEFAULT_MAX_BYTES), DEFAULT_MAX_BYTES);
    Limits(Min(Or(c.targetBytes, DEFAULT_TARGET_BYTES), max), max, Or(c.maxTxs, DEFAULT_MAX_TXS),
           Or(c.txBytes, DEFAULT_TX_BYTES), Or(c.metadataBytes, DEFAULT_METADATA_BYTES))
  }

  function WithHeadroom(limit: nat): nat { if limit <= HEADROOM then 0 else limit - HEADROOM }

  function TxLimit(l: Limits, t: Tx): nat { if t.metadata then l.metadataBytes else l.txBytes }

  // ---------------------------------------------------------------- what comes next

  /** What a selection starts from: the pool in priority order, what is applied, the nonces each
      account hands out in turn, and the limits. */
  datatype Setting = Setting(order: seq<Tx>, applied: set<Id>, series: (Addr, nat) -> nat, limits: Limits)

  function Ids(s: seq<Tx>): set<Id> { set t | t in s :: t.id }

  function Bytes(s: seq<Tx>): nat { if s == [] then 0 else Bytes(s[..|s| - 1]) + s[|s| - 1].size }

  /** The nonces of a sender's picks that were not applied before, in block order. */
  function PickedNonces(s: seq<Tx>, applied: set<Id>, a: Addr): seq<nat> {
    if s == [] then []
    else
      var rest, t := PickedNonces(s[..|s| - 1], applied, a), s[|s| - 1];
      if t.sender == a && t.id !in applied then rest + [t.nonce] else rest
  }

  type Accounts = m: map<Addr, nat> | forall a | a in m :: m[a] < TWO64

  function AccountNonce(accounts: Accounts, a: Addr): nat { if a != "" && a in accounts then accounts[a] else 0 }

  function Succ(n: nat): nat { (n + 1) % TWO64 }

  /** An account's nonces from the recorded one on, wrapping at 64 bits. */
  function Series(accounts: Accounts): (Addr, nat) -> nat { (a, k) => (AccountNonce(accounts, a) + k) % TWO64 }

  ghost predicate Counts(series: (Addr, nat) -> nat) { forall a, k: nat :: series(a, k + 1) == Succ(series(a, k)) }

  lemma SeriesCounts(accounts: Accounts)
    ensures Counts(Series(accounts)) && forall a :: Series(accounts)(a, 0) == AccountNonce(accounts, a)
  {
    forall a, k: nat ensures Series(accounts)(a, k + 1) == Succ(Series(accounts)(a, k)) {
      WrapNext(AccountNonce(accounts, a) + k);
    }
    forall a ensures Series(accounts)(a, 0) == AccountNonce(accounts, a) {
      SmallStays(AccountNonce(accounts, a));
    }
  }

  lemma WrapNext(x: nat)
    ensures (x % TWO64 + 1) % TWO64 == (x + 1) % TWO64
  {
  }

  lemma SmallStays(x: nat)
    requires x < TWO64
    ensures x % TWO64 == x
  {
  }

  function NextNonce(c: Setting, chosen: seq<Tx>, a: Addr): nat {
    c.series(a, |PickedNonces(chosen, c.applied, a)|)
  }

  predicate Ready(c: Setting, chosen: seq<Tx>, t: Tx) {
    t.id !in Ids(chosen) && t.nonce == NextNonce(c, chosen, t.sender)
  }

  predicate Waiting(c: Setting, chosen: seq<Tx>, t: Tx) { t.id !in Ids(chosen) && t.id in c.applied }

  /** The first position from `i` on with an applied transaction not yet chosen. */
  function FirstApplied(c: Setting, chosen: seq<Tx>, i: nat): (k: nat)
    requires i <= |c.order|
    ensures i <= k <= |c.order| && (k < |c.order| ==> Waiting(c, chosen, c.order[k]))
    ensures forall j | i <= j < k :: !Waiting(c, chosen, c.order[j])
    decreases |c.order| - i
  {
    if i == |c.order| || Waiting(c, chosen, c.order[i]) then i else FirstApplied(c, chosen, i + 1)
  }

  /** The first position from `i` on that continues its sender's nonces. */
  function FirstReady(c: Setting, chosen: seq<Tx>, i: nat): (k: nat)
    requires i <= |c.order|
    ensures i <= k <= |c.order| && (k < |c.order| ==> Ready(c, chosen, c.order[k]))
    ensures forall j | i <= j < k :: !Ready(c, chosen, c.order[j])
    decreases |c.order| - i
  {
    if i == |c.order| || Ready(c, chosen, c.order[i]) then i else FirstReady(c, chosen, i + 1)
  }

  predicate Fits(c: Setting, chosen: seq<Tx>, t: Tx, limit: nat) {
    |chosen| < c.limits.maxTxs && t.size <= TxLimit(c.limits, t) && Bytes(chosen) + t.size <= limit
  }

  /** The transaction a block takes next, if any: the best applied one against the hard limit; only
      when none is left, the best ready one against the target. One that does not fit ends the block. */
  function Next(c: Setting, chosen: seq<Tx>): (r: Option<Tx>) {
    var i := FirstApplied(c, chosen, 0);
    if i < |c.order| then
      if Fits(c, chosen, c.order[i], WithHeadroom(c.limits.maxBytes)) then Some(c.order[i]) else None
    else
      var j := FirstReady(c, chosen, 0);
      if j < |c.order| && Fits(c, chosen, c.order[j], WithHeadroom(c.limits.targetBytes)) then Some(c.order[j]) else None
  }

  /** `Next` as a value, so that what follows does not depend on how it is computed. */
  ghost function Rule(c: Setting): seq<Tx> -> Option<Tx> { s => Next(c, s) }

  ghost predicate Grown(rule: seq<Tx> -> Option<Tx>, s: seq<Tx>) { forall k | 0 <= k < |s| :: rule(s[..k]) == Some(s[k]) }

  /** A block's selection: each transaction is the next one after those before it, and nothing comes next. */
  ghost predicate IsSelection(rule: seq<Tx> -> Option<Tx>, s: seq<Tx>) { Grown(rule, s) && rule(s) == None }

  lemma GrownShorter(rule: seq<Tx> -> Option<Tx>, s: seq<Tx>)
    requires Grown(rule, s) && s != []
    ensures Grown(rule, s[..|s| - 1]) && rule(s[..|s| - 1]) == Some(s[|s| - 1])
  {
    var r := s[..|s| - 1];
    forall k | 0 <= k < |r| ensures rule(r[..k]) == Some(r[k]) { assert r[..k] == s[..k]; }
  }

  lemma GrownLonger(rule: seq<Tx> -> Option<Tx>, s: seq<Tx>, t: Tx)
    requires Grown(rule, s) && rule(s) == Some(t)
    ensures Grown(rule, s + [t])
  {
    var r := s + [t];
    forall k | 0 <= k < |r| ensures rule(r[..k]) == Some(r[k]) { assert r[..k] == s[..k]; }
  }

  lemma {:induction false} PrefixesAgree(rule: seq<Tx> -> Option<Tx>, s: seq<Tx>, t: seq<Tx>, k: nat)
    requires Grown(rule, s) && Grown(rule, t) && k <= |s| && k <= |t|
    ensures s[..k] == t[..k]
  {
    if k > 0 {
      PrefixesAgree(rule, s, t, k - 1);
      assert rule(s[..k - 1]) == Some(s[k - 1]) && rule(t[..k - 1]) == Some(t[k - 1]);
      assert s[..k] == s[..k - 1] + [s[k - 1]] && t[..k] == t[..k - 1] + [t[k - 1]];
    }
  }

  /** There is one selection. */
  lemma SelectionIsUnique(rule: seq<Tx> -> Option<Tx>, s: seq<Tx>, t: seq<Tx>)
    requires IsSelection(rule, s) && IsSelection(rule, t)
    ensures s == t
  {
    var k := Min(|s|, |t|);
    PrefixesAgree(rule, s, t, k);
    assert s[..|s|] == s && t[..|t|] == t;
  }

  // ---------------------------------------------------------------- what a selection keeps

  predicate Within(c: Setting, s: seq<Tx>) {
    && |s| <= c.limits.maxTxs
    && Bytes(s) <= WithHeadroom(c.limits.maxBytes)
    && forall k | 0 <= k < |s| :: s[k].size <= TxLimit(c.limits, s[k])
  }

  lemma NextIsNew(c: Setting, s: seq<Tx>, t: Tx)
    requires Rule(c)(s) == Some(t) && c.limits.targetBytes <= c.limits.maxBytes
    ensures t in c.order && t.id !in Ids(s) && Fits(c, s, t, WithHeadroom(c.limits.maxBytes))
  {
    assert Next(c, s) == Some(t);
  }

  lemma NextContinues(c: Setting, s: seq<Tx>, t: Tx)
    requires Rule(c)(s) == Some(t) && t.id !in c.applied
    ensures Ready(c, s, t)
    ensures forall i | 0 <= i < |c.order| :: !Waiting(c, s, c.order[i])
    ensures exists i :: 0 <= i < |c.order| && c.order[i] == t && forall j | 0 <= j < i :: !Ready(c, s, c.order[j])
  {
    assert Next(c, s) == Some(t);
    var i := FirstReady(c, s, 0);
    assert FirstApplied(c, s, 0) == |c.order|;
    assert c.order[i] == t;
  }

  lemma OneMore(c: Setting, r: seq<Tx>, t: Tx)
    requires DistinctIds(r) && t.id !in Ids(r) && t in c.order && forall u | u in r :: u in c.order
    ensures DistinctIds(r + [t]) && forall u | u in r + [t] :: u in c.order
  {
    assert forall k | 0 <= k < |r| :: r[k].id in Ids(r);
  }

  lemma OneMoreFits(c: Setting, r: seq<Tx>, t: Tx)
    requires Within(c, r) && Fits(c, r, t, WithHeadroom(c.limits.maxBytes))
    ensures Within(c, r + [t])
  {
    assert (r + [t])[..|r|] == r;
  }

  /** No repeats, only pending transactions, and every count and byte limit holds. */
  lemma {:induction false} SelectionFits(c: Setting, s: seq<Tx>)
    requires Grown(Rule(c), s) && c.limits.targetBytes <= c.limits.maxBytes
    ensures Within(c, s) && DistinctIds(s) && forall t | t in s :: t in c.order
  {
    if s != [] {
      var r, t := s[..|s| - 1], s[|s| - 1];
      GrownShorter(Rule(c), s);
      SelectionFits(c, r);
      NextIsNew(c, r, t);
      OneMore(c, r, t);
      OneMoreFits(c, r, t);
      assert s == r + [t];
    }
  }

  /** Each sender's picks that were not applied before carry consecutive nonces from the account
      nonce: the k-th is the k-th of the account's series. */
  lemma {:induction false} PicksAreConsecutive(c: Setting, s: seq<Tx>, a: Addr, k: nat)
    requires Grown(Rule(c), s) && k < |PickedNonces(s, c.applied, a)|
    ensures PickedNonces(s, c.applied, a)[k] == c.series(a, k)
    decreases |s|
  {
    var r, t := s[..|s| - 1], s[|s| - 1];
    GrownShorter(Rule(c), s);
    if k < |PickedNonces(r, c.applied, a)| { PicksAreConsecutive(c, r, a, k); } else { NextContinues(c, r, t); }
  }

  /** Once a block takes a transaction that was not applied, it has every applied one already. */
  lemma AppliedComeFirst(c: Setting, s: seq<Tx>, k: nat, u: Tx)
    requires Grown(Rule(c), s) && k < |s| && s[k].id !in c.applied
    requires u in c.order && u.id in c.applied
    ensures u.id in Ids(s[..k])
  {
    NextContinues(c, s[..k], s[k]);
    var j :| 0 <= j < |c.order| && c.order[j] == u;
    assert !Waiting(c, s[..k], c.order[j]);
  }

  /** Each such pick is the best of the ready ones: no other ready transaction has priority over it. */
  lemma PicksAreBest(c: Setting, s: seq<Tx>, k: nat, u: Tx)
    requires Ordered(c.order) && Grown(Rule(c), s) && k < |s| && s[k].id !in c.applied
    requires u in c.order && Ready(c, s[..k], u) && u != s[k]
    ensures Before(s[k], u)
  {
    var chosen := s[..k];
    NextContinues(c, chosen, s[k]);
    var i :| 0 <= i < |c.order| && c.order[i] == s[k] && forall j | 0 <= j < i :: !Ready(c, chosen, c.order[j]);
    var j :| 0 <= j < |c.order| && c.order[j] == u;
    assert i < j;
  }

  /** The same transactions give the same block, whatever order they arrived in. */
  lemma ArrivalOrderIsIrrelevant(p: seq<Tx>, q: seq<Tx>, c: Setting, s: seq<Tx>, t: seq<Tx>)
    requires multiset(p) == multiset(q) && DistinctIds(p) && DistinctIds(q)
    requires IsSelection(Rule(c.(order := Sort(p))), s) && IsSelection(Rule(c.(order := Sort(q))), t)
    ensures s == t
  {
    SortOrdered(p);
    SortOrdered(q);
    OrderIsUnique(Sort(p), Sort(q));
    SelectionIsUnique(Rule(c.(order := Sort(p))), s, t);
  }

  // ---------------------------------------------------------------- the order and the limits, field by field

  /** `t` is ahead of `u`: a higher fee; at equal fees an earlier sender; then a smaller nonce, an earlier
      creation time and an earlier id, each only where all before it agree. */
  ghost predicate Ahead(t: Tx, u: Tx) {
    && t.fee >= u.fee
    && (t.fee == u.fee ==> t.sender == u.sender || Lex(t.sender, u.sender))
    && (t.fee == u.fee && t.sender == u.sender ==> t.nonce <= u.nonce)
    && (t.fee == u.fee && t.sender == u.sender && t.nonce == u.nonce ==> t.created <= u.created)
    && (t.fee == u.fee && t.sender == u.sender && t.nonce == u.nonce && t.created == u.created ==> t.id == u.id || Lex(t.id, u.id))
  }

  lemma BeforeIsAhead(t: Tx, u: Tx)
    ensures Before(t, u) ==> Ahead(t, u)
    ensures t.id != u.id ==> (Before(t, u) <==> Ahead(t, u))
  {
    LexTotal(t.sender, u.sender);
    LexTotal(t.id, u.id);
  }

  /** In priority order every transaction is ahead of the ones after it. */
  lemma SortPutsAhead(pending: seq<Tx>, i: nat, j: nat)
    requires DistinctIds(pending) && i < j < |pending|
    ensures |Sort(pending)| == |pending| && Ahead(Sort(pending)[i], Sort(pending)[j])
  {
    assert |multiset(Sort(pending))| == |multiset(pending)|;
    SortOrdered(pending);
    BeforeIsAhead(Sort(pending)[i], Sort(pending)[j]);
  }

  lemma NoneWaitingTakesNew(c: Setting, s: seq<Tx>)
    ensures FirstApplied(c, s, 0) == |c.order| && Next(c, s).Some? ==> Next(c, s).value.id !in c.applied
  {
    var i, j := FirstApplied(c, s, 0), FirstReady(c, s, 0);
    if i == |c.order| && j < |c.order| { assert !Waiting(c, s, c.order[j]); }
  }

  /** An applied pick is the first applied one in the order that is not chosen yet. */
  lemma NextTakesApplied(c: Setting, s: seq<Tx>, t: Tx)
    requires Rule(c)(s) == Some(t) && t.id in c.applied
    ensures exists i :: 0 <= i < |c.order| && c.order[i] == t && forall j | 0 <= j < i :: !Waiting(c, s, c.order[j])
  {
    assert Next(c, s) == Some(t);
    var i := FirstApplied(c, s, 0);
    NoneWaitingTakesNew(c, s);
    assert c.order[i] == t;
  }

  /** The first of a kind in the order is ahead of all others of the kind. */
  lemma FirstIsAhead(order: seq<Tx>, kind: Tx -> bool, i: nat)
    requires Ordered(order) && i < |order| && forall j | 0 <= j < i :: !kind(order[j])
    ensures forall u | u in order && kind(u) && u != order[i] :: Ahead(order[i], u)
  {
    forall u | u in order && kind(u) && u != order[i] ensures Ahead(order[i], u) {
      var j :| 0 <= j < |order| && order[j] == u;
      assert i < j;
      BeforeIsAhead(order[i], u);
    }
  }

  ghost function StillWaiting(c: Setting, s: seq<Tx>): Tx -> bool { t => Waiting(c, s, t) }
  ghost function IsReady(c: Setting, s: seq<Tx>): Tx -> bool { t => Ready(c, s, t) }

  /** Every pick is ahead of whatever else the block could have taken there: an applied pick of the
      applied ones still waiting, any other pick of the ones whose nonce is next for their sender. */
  lemma PickIsAhead(c: Setting, pending: seq<Tx>, s: seq<Tx>, k: nat, u: Tx)
    requires c.order == Sort(pending) && DistinctIds(pending) && Grown(Rule(c), s) && k < |s|
    requires u in c.order && u != s[k] && u.id !in Ids(s[..k])
    requires if s[k].id in c.applied then u.id in c.applied else u.nonce == NextNonce(c, s[..k], u.sender)
    ensures Ahead(s[k], u)
  {
    SortOrdered(pending);
    if s[k].id in c.applied {
      NextTakesApplied(c, s[..k], s[k]);
      var i :| 0 <= i < |c.order| && c.order[i] == s[k] && forall j | 0 <= j < i :: !Waiting(c, s[..k], c.order[j]);
      FirstIsAhead(c.order, StillWaiting(c, s[..k]), i);
    } else {
      PicksAreBest(c, s, k, u);
      BeforeIsAhead(s[k], u);
    }
  }

  /** What the block may not exceed with one more transaction. */
  ghost predicate TooMuch(c: Setting, s: seq<Tx>, t: Tx, limit: nat) {
    || |s| >= c.limits.maxTxs
    || t.size > (if t.metadata then c.limits.metadataBytes else c.limits.txBytes)
    || Bytes(s) + t.size > (if limit >= 8192 then limit - 8192 else 0)
  }

  /** A block ends only when its next transaction, the one ahead of all others it could take, is too
      much for it, or when there is none: the case of an applied one still waiting. */
  lemma EndsAtApplied(c: Setting, pending: seq<Tx>, s: seq<Tx>, u: Tx) returns (r: Tx)
    requires c.order == Sort(pending) && DistinctIds(pending) && IsSelection(Rule(c), s)
    requires u in c.order && u.id in c.applied && u.id !in Ids(s)
    ensures r in c.order && r.id in c.applied && r.id !in Ids(s)
    ensures TooMuch(c, s, r, c.limits.maxBytes)
    ensures forall v | v in c.order && Waiting(c, s, v) && v != r :: Ahead(r, v)
  {
    SortOrdered(pending);
    assert Next(c, s) == None;
    var i := FirstApplied(c, s, 0);
    assert i < |c.order| by {
      var j :| 0 <= j < |c.order| && c.order[j] == u;
      assert Waiting(c, s, c.order[j]);
    }
    r := c.order[i];
    FirstIsAhead(c.order, StillWaiting(c, s), i);
    assert forall v :: StillWaiting(c, s)(v) <==> Waiting(c, s, v);
  }

  /** The case of no applied one left: the best of those whose nonce is next is too much, or there is none. */
  lemma EndsAtReady(c: Setting, pending: seq<Tx>, s: seq<Tx>) returns (r: Option<Tx>)
    requires c.order == Sort(pending) && DistinctIds(pending) && IsSelection(Rule(c), s)
    requires forall v | v in c.order && v.id in c.applied :: v.id in Ids(s)
    ensures r == None ==> forall v | v in c.order && v.id !in Ids(s) :: v.nonce != NextNonce(c, s, v.sender)
    ensures r.Some? ==> r.value in c.order && Ready(c, s, r.value) && TooMuch(c, s, r.value, c.limits.targetBytes)
    ensures r.Some? ==> forall v | v in c.order && Ready(c, s, v) && v != r.value :: Ahead(r.value, v)
  {
    SortOrdered(pending);
    assert Next(c, s) == None;
    var j := FirstReady(c, s, 0);
    assert FirstApplied(c, s, 0) == |c.order|;
    if j < |c.order| {
      r := Some(c.order[j]);
      FirstIsAhead(c.order, IsReady(c, s), j);
      assert forall v :: IsReady(c, s)(v) <==> Ready(c, s, v);
    } else {
      r := None;
    }
  }

  /** The limits a block obeys, from the configured ones: zero means the default, and neither byte limit
      goes beyond one mebibyte; the target stays within the maximum. */
  lemma LimitsAre(conf: Limits)
    ensures var l := BlockLimits(conf);
            && l.maxTxs == (if conf.maxTxs > 0 then conf.maxTxs else 200)
            && l.txBytes == (if conf.txBytes > 0 then conf.txBytes else 16_384)
            && l.metadataBytes == (if conf.metadataBytes > 0 then conf.metadataBytes else 131_072)
            && l.maxBytes == (if 0 < conf.maxBytes <= 1_048_576 then conf.maxBytes else 1_048_576)
            && (conf.targetBytes == 0 ==> l.targetBytes == if l.maxBytes < 262_144 then l.maxBytes else 262_144)
            && (conf.targetBytes > 0 ==> l.targetBytes == if l.maxBytes < conf.targetBytes then l.maxBytes else conf.targetBytes)
  {
  }

  /** A block stays 8 KiB below its limits: below the maximum throughout, and below the target whenever
      it takes a transaction that was not applied before. */
  lemma BlockKeepsLimits(c: Setting, s: seq<Tx>, k: nat)
    requires Grown(Rule(c), s) && k < |s| && c.limits.targetBytes <= c.limits.maxBytes
    ensures |s| <= c.limits.maxTxs
    ensures Bytes(s) + 8192 <= c.limits.maxBytes || Bytes(s) == 0
    ensures s[k].size <= if s[k].metadata then c.limits.metadataBytes else c.limits.txBytes
    ensures s[k].id !in c.applied ==> Bytes(s[..k]) + s[k].size + 8192 <= c.limits.targetBytes || Bytes(s[..k]) + s[k].size == 0
  {
    SelectionFits(c, s);
    NewPickFitsTarget(c, s[..k], s[k]);
  }

  lemma NewPickFitsTarget(c: Setting, s: seq<Tx>, t: Tx)
    requires Rule(c)(s) == Some(t)
    ensures t.id !in c.applied ==> Bytes(s) + t.size + 8192 <= c.limits.targetBytes || Bytes(s) + t.size == 0
  {
    assert Next(c, s) == Some(t);
    var i := FirstApplied(c, s, 0);
  }

  // ---------------------------------------------------------------- the selection loop

  /** What the loops carry: the chosen ids, the running byte count, and each sender's next nonce. */
  predicate Tracks(c: Setting, s: seq<Tx>, ids: set<Id>, bytes: nat, nonces: map<Addr, nat>) {
    ids == Ids(s) && bytes == Bytes(s) && forall i | 0 <= i < |c.order| :: NonceIn(nonces, c.order[i].sender) == NextNonce(c, s, c.order[i].sender)
  }

  function NonceIn(nonces: map<Addr, nat>, a: Addr): nat { if a in nonces then nonces[a] else 0 }

  /** Starts every named sender at its account nonce. */
  method StartNonces(order: seq<Tx>, accounts: Accounts) returns (next: map<Addr, nat>)
    ensures forall i | 0 <= i < |order| :: NonceIn(next, order[i].sender) == AccountNonce(accounts, order[i].sender)
  {
    next := map[];
    var i := 0;
    while i < |order|
      invariant 0 <= i <= |order| && "" !in next
      invariant forall a | a in next :: next[a] == AccountNonce(accounts, a)
      invariant forall k | 0 <= k < i && order[k].sender != "" :: order[k].sender in next
    {
      var a := order[i].sender;
      if a != "" && a !in next { next := next[a := if a in accounts then accounts[a] else 0]; }
      i := i + 1;
    }
  }

  /** Adds one transaction unless a limit stands in the way. */
  method AddTx(c: Setting, s: seq<Tx>, bytes: nat, t: Tx, limit: nat) returns (ok: bool)
    requires bytes == Bytes(s)
    ensures ok <==> Fits(c, s, t, limit)
  {
    if |s| >= c.limits.maxTxs { return false; }
    if t.size > TxLimit(c.limits, t) { return false; }
    return bytes + t.size <= limit;
  }

  lemma BytesOneMore(s: seq<Tx>, t: Tx)
    ensures Bytes(s + [t]) == Bytes(s) + t.size && Ids(s + [t]) == Ids(s) + {t.id}
  {
    assert (s + [t])[..|s|] == s;
  }

  lemma PickOneMore(s: seq<Tx>, t: Tx, applied: set<Id>, a: Addr)
    ensures PickedNonces(s + [t], applied, a)
            == PickedNonces(s, applied, a) + if t.sender == a && t.id !in applied then [t.nonce] else []
  {
    assert (s + [t])[..|s|] == s;
  }

  lemma {:induction false} NoPicks(s: seq<Tx>, applied: set<Id>, a: Addr)
    requires forall t | t in s :: t.id in applied
    ensures PickedNonces(s, applied, a) == []
  {
    if s != [] { NoPicks(s[..|s| - 1], applied, a); }
  }

  lemma StartTracks(c: Setting, s: seq<Tx>, nonces: map<Addr, nat>)
    requires forall t | t in s :: t.id in c.applied
    requires forall i | 0 <= i < |c.order| :: NonceIn(nonces, c.order[i].sender) == c.series(c.order[i].sender, 0)
    ensures Tracks(c, s, Ids(s), Bytes(s), nonces)
  {
    forall i | 0 <= i < |c.order| ensures NonceIn(nonces, c.order[i].sender) == NextNonce(c, s, c.order[i].sender) {
      NoPicks(s, c.applied, c.order[i].sender);
    }
  }

  predicate NoneWaiting(c: Setting, s: seq<Tx>) { forall i | 0 <= i < |c.order| :: !Waiting(c, s, c.order[i]) }

  /** The first phase at position `i`: everything applied before it is in, nothing from it on. */
  ghost predicate Taking(c: Setting, s: seq<Tx>, i: nat)
    requires i <= |c.order|
  {
    && Grown(Rule(c), s)
    && (forall k | 0 <= k < i :: !Waiting(c, s, c.order[k]))
    && (forall k | i <= k < |c.order| :: c.order[k].id !in Ids(s))
    && (forall t | t in s :: t.id in c.applied)
  }

  lemma TakingOneMore(c: Setting, s: seq<Tx>, i: nat)
    requires i < |c.order| && DistinctIds(c.order) && Taking(c, s, i) && c.order[i].id in c.applied
    ensures Rule(c)(s) == if Fits(c, s, c.order[i], WithHeadroom(c.limits.maxBytes)) then Some(c.order[i]) else None
    ensures Fits(c, s, c.order[i], WithHeadroom(c.limits.maxBytes)) ==> Taking(c, s + [c.order[i]], i + 1)
  {
    NextApplied(c, s, i);
    if Fits(c, s, c.order[i], WithHeadroom(c.limits.maxBytes)) { GrownLonger(Rule(c), s, c.order[i]); }
    BytesOneMore(s, c.order[i]);
  }

  /** The applied transactions, in priority order, until one does not fit. */
  method TakeApplied(c: Setting) returns (s: seq<Tx>, ids: set<Id>, bytes: nat, full: bool)
    requires DistinctIds(c.order)
    ensures Grown(Rule(c), s) && ids == Ids(s) && bytes == Bytes(s)
    ensures full ==> Rule(c)(s) == None
    ensures !full ==> NoneWaiting(c, s)
    ensures forall t | t in s :: t.id in c.applied
  {
    s, ids, bytes, full := [], {}, 0, false;
    var i := 0;
    while i < |c.order|
      invariant 0 <= i <= |c.order| && Taking(c, s, i) && ids == Ids(s) && bytes == Bytes(s)
    {
      var t := c.order[i];
      if t.id in c.applied {
        TakingOneMore(c, s, i);
        var ok := AddTx(c, s, bytes, t, WithHeadroom(c.limits.maxBytes));
        if !ok { full := true; return; }
        BytesOneMore(s, t);
        s, ids, bytes := s + [t], ids + {t.id}, bytes + t.size;
      }
      i := i + 1;
    }
  }

  lemma NextApplied(c: Setting, s: seq<Tx>, i: nat)
    requires i < |c.order| && Waiting(c, s, c.order[i]) && forall k | 0 <= k < i :: !Waiting(c, s, c.order[k])
    ensures Rule(c)(s) == if Fits(c, s, c.order[i], WithHeadroom(c.limits.maxBytes)) then Some(c.order[i]) else None
  {
    assert FirstApplied(c, s, 0) == i;
  }

  /** No position before `i` is ready, and `i` is unless it is the end. */
  predicate FirstIs(c: Setting, s: seq<Tx>, i: nat)
    requires i <= |c.order|
  {
    (i < |c.order| ==> Ready(c, s, c.order[i])) && forall k | 0 <= k < i :: !Ready(c, s, c.order[k])
  }

  lemma NextReady(c: Setting, s: seq<Tx>, i: nat)
    requires i <= |c.order| && NoneWaiting(c, s) && FirstIs(c, s, i)
    ensures Rule(c)(s) == if i < |c.order| && Fits(c, s, c.order[i], WithHeadroom(c.limits.targetBytes)) then Some(c.order[i]) else None
  {
    assert FirstApplied(c, s, 0) == |c.order|;
    assert FirstReady(c, s, 0) == i;
  }

  /** The first transaction not chosen yet that continues its sender's nonces. */
  method FindReady(c: Setting, ghost s: seq<Tx>, ids: set<Id>, ghost bytes: nat, nonces: map<Addr, nat>) returns (i: nat)
    requires Tracks(c, s, ids, bytes, nonces)
    ensures i <= |c.order| && FirstIs(c, s, i)
  {
    i := 0;
    while i < |c.order|
      invariant i <= |c.order| && forall k | 0 <= k < i :: !Ready(c, s, c.order[k])
    {
      var t := c.order[i];
      if t.id !in ids && t.nonce == NonceIn(nonces, t.sender) { return; }
      i := i + 1;
    }
  }

  lemma StillNoneWaiting(c: Setting, s: seq<Tx>, t: Tx)
    requires NoneWaiting(c, s)
    ensures NoneWaiting(c, s + [t])
  {
    BytesOneMore(s, t);
    forall i | 0 <= i < |c.order| ensures !Waiting(c, s + [t], c.order[i]) {
      assert !Waiting(c, s, c.order[i]);
    }
  }

  lemma NextNonceOneMore(c: Setting, s: seq<Tx>, t: Tx, a: Addr)
    requires Ready(c, s, t) && t.id !in c.applied && Counts(c.series)
    ensures NextNonce(c, s + [t], a) == if a == t.sender then Succ(t.nonce) else NextNonce(c, s, a)
  {
    PickOneMore(s, t, c.applied, a);
  }

  lemma TracksOneMore(c: Setting, s: seq<Tx>, ids: set<Id>, bytes: nat, nonces: map<Addr, nat>, t: Tx, n: nat)
    requires Tracks(c, s, ids, bytes, nonces) && Ready(c, s, t) && t.id !in c.applied && Counts(c.series) && n == Succ(t.nonce)
    ensures Tracks(c, s + [t], ids + {t.id}, bytes + t.size, nonces[t.sender := n])
  {
    BytesOneMore(s, t);
    forall i | 0 <= i < |c.order| ensures NonceIn(nonces[t.sender := n], c.order[i].sender) == NextNonce(c, s + [t], c.order[i].sender) {
      NextNonceOneMore(c, s, t, c.order[i].sender);
    }
  }

  /** The second phase: the applied ones are in, and the running records are right. */
  ghost predicate Filling(c: Setting, s: seq<Tx>, ids: set<Id>, bytes: nat, nonces: map<Addr, nat>) {
    Grown(Rule(c), s) && Tracks(c, s, ids, bytes, nonces) && NoneWaiting(c, s)
  }

  lemma FillingOneMore(c: Setting, s: seq<Tx>, ids: set<Id>, bytes: nat, nonces: map<Addr, nat>, i: nat, n: nat)
    requires Counts(c.series) && Filling(c, s, ids, bytes, nonces) && i < |c.order| && FirstIs(c, s, i)
    requires Fits(c, s, c.order[i], WithHeadroom(c.limits.targetBytes)) && n == Succ(c.order[i].nonce)
    ensures var t := c.order[i]; Filling(c, s + [t], ids + {t.id}, bytes + t.size, nonces[t.sender := n])
  {
    var t := c.order[i];
    assert !Waiting(c, s, t);
    NextReady(c, s, i);
    GrownLonger(Rule(c), s, t);
    StillNoneWaiting(c, s, t);
    TracksOneMore(c, s, ids, bytes, nonces, t, n);
  }

  lemma FewerLeft(order: seq<Tx>, ids: set<Id>, i: nat)
    requires i < |order| && order[i].id !in ids
    ensures |Ids(order) - (ids + {order[i].id})| < |Ids(order) - ids|
  {
    assert order[i].id in Ids(order);
    assert Ids(order) - ids == (Ids(order) - (ids + {order[i].id})) + {order[i].id};
  }

  /** What the second phase carries from round to round. */
  datatype Progress = Progress(s: seq<Tx>, ids: set<Id>, bytes: nat, nonces: map<Addr, nat>)

  ghost function OnCourse(c: Setting): Progress -> bool { (p: Progress) => Filling(c, p.s, p.ids, p.bytes, p.nonces) }

  ghost function Left(c: Setting, p: Progress): nat { |Ids(c.order) - p.ids| }

  function Added(p: Progress, t: Tx): Progress {
    Progress(p.s + [t], p.ids + {t.id}, p.bytes + t.size, p.nonces[t.sender := Succ(t.nonce)])
  }

  lemma RoundAdds(c: Setting, p: Progress, i: nat)
    requires Counts(c.series) && OnCourse(c)(p) && i < |c.order| && FirstIs(c, p.s, i)
    requires Fits(c, p.s, c.order[i], WithHeadroom(c.limits.targetBytes))
    ensures OnCourse(c)(Added(p, c.order[i]))
  {
    FillingOneMore(c, p.s, p.ids, p.bytes, p.nonces, i, Succ(c.order[i].nonce));
  }

  lemma RoundShrinks(c: Setting, p: Progress, i: nat)
    requires OnCourse(c)(p) && i < |c.order| && FirstIs(c, p.s, i)
    ensures Left(c, Added(p, c.order[i])) < Left(c, p)
  {
    FewerLeft(c.order, p.ids, i);
  }

  lemma RoundEnds(c: Setting, p: Progress, i: nat)
    requires OnCourse(c)(p) && i <= |c.order| && FirstIs(c, p.s, i)
    requires i < |c.order| ==> !Fits(c, p.s, c.order[i], WithHeadroom(c.limits.targetBytes))
    ensures IsSelection(Rule(c), p.s)
  {
    NextReady(c, p.s, i);
  }

  /** Looks for the next ready transaction and says whether it fits. */
  method Propose(c: Setting, p: Progress) returns (i: nat, ok: bool)
    requires OnCourse(c)(p)
    ensures i <= |c.order| && FirstIs(c, p.s, i)
    ensures ok <==> i < |c.order| && Fits(c, p.s, c.order[i], WithHeadroom(c.limits.targetBytes))
  {
    i := FindReady(c, p.s, p.ids, p.bytes, p.nonces);
    ok := false;
    if i < |c.order| { ok := AddTx(c, p.s, p.bytes, c.order[i], WithHeadroom(c.limits.targetBytes)); }
  }

  /** One round: adds the next ready transaction, unless there is none or it does not fit. */
  method TakeReady(c: Setting, p: Progress) returns (r: Option<Progress>)
    requires Counts(c.series) && OnCourse(c)(p)
    ensures r == None ==> IsSelection(Rule(c), p.s)
    ensures r.Some? ==> OnCourse(c)(r.value) && Left(c, r.value) < Left(c, p)
  {
    var i, ok := Propose(c, p);
    if ok {
      RoundAdds(c, p, i);
      RoundShrinks(c, p, i);
      return Some(Added(p, c.order[i]));
    } else {
      RoundEnds(c, p, i);
      return None;
    }
  }

  /** Adds ready transactions one at a time. It ends because every round takes an id that was not
      taken before. */
  method Fill(c: Setting, start: Progress) returns (s: seq<Tx>)
    requires Counts(c.series) && OnCourse(c)(start)
    ensures IsSelection(Rule(c), s)
  {
    var p := start;
    var r := TakeReady(c, p);
    while r.Some?
      invariant r.Some? ==> OnCourse(c)(r.value)
      invariant r == None ==> IsSelection(Rule(c), p.s)
      decreases if r.Some? then Left(c, r.value) + 1 else 0
    {
      p := r.value;
      r := TakeReady(c, p);
    }
    return p.s;
  }

  /** Chooses a block's transactions. */
  method SelectForBlock(pending: seq<Tx>, applied: set<Id>, accounts: Accounts, configured: Limits) returns (s: seq<Tx>)
    requires DistinctIds(pending)
    ensures IsSelection(Rule(Setting(Sort(pending), applied, Series(accounts), BlockLimits(configured))), s)
  {
    SortDistinct(pending);
    SeriesCounts(accounts);
    var order := Sort(pending);
    var next := StartNonces(order, accounts);
    s := SelectFrom(Setting(order, applied, Series(accounts), BlockLimits(configured)), next);
  }

  method SelectFrom(c: Setting, next: map<Addr, nat>) returns (s: seq<Tx>)
    requires DistinctIds(c.order) && Counts(c.series)
    requires forall i | 0 <= i < |c.order| :: NonceIn(next, c.order[i].sender) == c.series(c.order[i].sender, 0)
    ensures IsSelection(Rule(c), s)
  {
    var bytes: nat;
    var ids, full;
    s, ids, bytes, full := TakeApplied(c);
    if full { return; }
    StartTracks(c, s, next);
    s := Fill(c, Progress(s, ids, bytes, next));
  }
}
