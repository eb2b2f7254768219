/** The mempool: admission with fee replacement, and the choice of transactions for a block.
    Metadata derived from the payload, encoded sizes and fee-market validity are inputs. */
module Mempool {
  import opened Numbers

  const MAX_TXS: nat := 10_000
  const MAX_PER_SENDER: nat := 512
  const HEADROOM: nat := 8 * 1024

  type Id = string

  datatype Tx = Tx(id: Id, sender: Addr, nonce: nat, nonceProtected: bool, fee: nat, created: int,
                   size: nat, metadata: bool)

  datatype State = State(pending: seq<Tx>, applied: set<Id>, confirmed: set<Id>)

  // ---------------------------------------------------------------- admission

  /** Two nonce-protected transactions of one sender with one nonce compete for the same slot. */
  predicate SameSlot(t: Tx, u: Tx) {
    t.nonceProtected && u.nonceProtected && t.sender == u.sender && t.nonce == u.nonce
  }

  predicate Clash(t: Tx, u: Tx) { t.id == u.id || SameSlot(t, u) }

  /** The first pending transaction that clashes with `tx`, or the length when none does. */
  function FirstClash(pending: seq<Tx>, tx: Tx): (i: nat)
    ensures i <= |pending|
    ensures i < |pending| ==> Clash(pending[i], tx)
    ensures forall j | 0 <= j < i :: !Clash(pending[j], tx)
  {
    if pending == [] || Clash(pending[0], tx) then 0 else 1 + FirstClash(pending[1..], tx)
  }

  function CountFrom(pending: seq<Tx>, a: Addr): nat {
    if pending == [] then 0
    else CountFrom(pending[..|pending| - 1], a) + (if pending[|pending| - 1].sender == a then 1 else 0)
  }

  /** Admission: accepted (appended or replacing), ignored, or refused with an error. */
  datatype Outcome = Accepted(pending: seq<Tx>) | Ignored | Refused

  function Admit(st: State, tx: Tx, feeValid: bool): Outcome {
    var i := FirstClash(st.pending, tx);
    if tx.id in st.confirmed then Ignored
    else if !feeValid then Refused
    else if i < |st.pending| then
      var other := st.pending[i];
      if other.id == tx.id then Ignored
      else if other.id in st.applied || tx.fee <= other.fee then Refused
      else Accepted(st.pending[i := tx])
    else if |st.pending| >= MAX_TXS || CountFrom(st.pending, tx.sender) >= MAX_PER_SENDER then Refused
    else Accepted(st.pending + [tx])
  }

  /** Steps: a received transaction, one recorded locally (applied at once), a withdrawn one, and
      a block with its transactions. */
  datatype Op =
    | OpReceive(tx: Tx, feeValid: bool)
    | OpRecord(tx: Tx, feeValid: bool)
    | OpWithdraw(id: Id)
    | OpBlock(ids: set<Id>)

  function Enqueue(st: State, tx: Tx, feeValid: bool): State {
    match Admit(st, tx, feeValid)
    case Accepted(p) => st.(pending := p)
    case _ => st
  }

  function Without(pending: seq<Tx>, ids: set<Id>): (r: seq<Tx>)
    ensures forall t :: t in r <==> t in pending && t.id !in ids
  {
    if pending == [] then []
    else
      var rest, last := Without(pending[..|pending| - 1], ids), pending[|pending| - 1];
      if last.id in ids then rest else rest + [last]
  }

  function Step(st: State, op: Op): State {
    match op
    case OpReceive(tx, v) => Enqueue(st, tx, v)
    case OpRecord(tx, v) =>
      if Admit(st, tx, v).Accepted? then Enqueue(st, tx, v).(applied := st.applied + {tx.id}) else st
    case OpWithdraw(id) =>
      if exists t :: t in st.pending && t.id == id
      then st.(pending := Without(st.pending, {id}), applied := st.applied - {id}) else st
    case OpBlock(ids) =>
      State(Without(st.pending, ids), st.applied + ids, st.confirmed + ids)
  }

  function Run(st: State, ops: seq<Op>): State
    decreases |ops|
  {
    if ops == [] then st else Run(Step(st, ops[0]), ops[1..])
  }

  /** A transaction id is a hash of the payload, which fixes sender, nonce and protection. */
  predicate Hashed(t: Tx, u: Tx) {
    t.id == u.id ==> t.sender == u.sender && t.nonce == u.nonce && t.nonceProtected == u.nonceProtected
  }

  predicate NewTx(st: State, op: Op) {
    match op
    case OpReceive(tx, _) => forall i | 0 <= i < |st.pending| :: Hashed(st.pending[i], tx)
    case OpRecord(tx, _) => forall i | 0 <= i < |st.pending| :: Hashed(st.pending[i], tx)
    case _ => true
  }

  predicate AllHashed(st: State, ops: seq<Op>)
    decreases |ops|
  {
    ops == [] || (NewTx(st, ops[0]) && AllHashed(Step(st, ops[0]), ops[1..]))
  }

  /** No two pending transactions clash: ids are distinct and so are sender and nonce of protected ones. */
  predicate ClashFree(pending: seq<Tx>) { forall i, j | 0 <= i < j < |pending| :: !Clash(pending[i], pending[j]) }

  ghost predicate Limited(pending: seq<Tx>) {
    |pending| <= MAX_TXS && forall a :: CountFrom(pending, a) <= MAX_PER_SENDER
  }

  ghost predicate Inv(st: State) { ClashFree(st.pending) && Limited(st.pending) }

  lemma {:induction false} CountReplaced(p: seq<Tx>, i: nat, tx: Tx, a: Addr)
    requires i < |p| && p[i].sender == tx.sender
    ensures CountFrom(p[i := tx], a) == CountFrom(p, a)
  {
    var n := |p| - 1;
    if i < n {
      CountReplaced(p[..n], i, tx, a);
      assert p[i := tx][..n] == p[..n][i := tx];
    } else {
      assert p[i := tx][..n] == p[..n];
    }
  }

  /** What a replacement takes out is the only thing the newcomer clashes with. */
  lemma ReplacedClashFree(p: seq<Tx>, tx: Tx)
    requires ClashFree(p) && FirstClash(p, tx) < |p| && p[FirstClash(p, tx)].id != tx.id
    requires forall i | 0 <= i < |p| :: Hashed(p[i], tx)
    ensures ClashFree(p[FirstClash(p, tx) := tx])
  {
    var i := FirstClash(p, tx);
    assert SameSlot(p[i], tx);
    forall j | 0 <= j < |p| && j != i ensures !Clash(p[j], tx) {
      assert !Clash(p[j], p[i]) || !Clash(p[i], p[j]);
      assert Hashed(p[j], tx);
    }
  }

  lemma EnqueueKeepsInv(st: State, tx: Tx, feeValid: bool)
    requires Inv(st) && forall i | 0 <= i < |st.pending| :: Hashed(st.pending[i], tx)
    ensures Inv(Enqueue(st, tx, feeValid))
  {
    var p := st.pending;
    var i := FirstClash(p, tx);
    if Admit(st, tx, feeValid).Accepted? {
      var q := Enqueue(st, tx, feeValid).pending;
      if i < |p| {
        ReplacedClashFree(p, tx);
        forall a ensures CountFrom(q, a) <= MAX_PER_SENDER { CountReplaced(p, i, tx, a); }
      } else {
        assert q[..|p|] == p && q[|p|] == tx;
        assert ClashFree(q);
        forall a ensures CountFrom(q, a) <= MAX_PER_SENDER { assert CountFrom(q, a) == CountFrom(p, a) + if tx.sender == a then 1 else 0; }
      }
    }
  }

  // ---------------------------------------------------------------- what admission decides

  lemma KnownIsIgnored(st: State, tx: Tx, feeValid: bool, j: nat)
    requires ClashFree(st.pending) && j < |st.pending| && st.pending[j].id == tx.id && Hashed(st.pending[j], tx)
    ensures Enqueue(st, tx, feeValid) == st
  {
    var i := FirstClash(st.pending, tx);
    assert i <= j;
    assert i < j ==> Clash(st.pending[i], st.pending[j]);
  }

  /** A transaction known as confirmed or pending changes nothing. One for a taken slot (a protected
      transaction of the same sender and nonce) takes it over exactly when its fee is valid and higher
      and the other is not applied yet. Any other one is appended exactly when its fee is valid, the
      pool is below ten thousand and its sender below five hundred and twelve. */
  lemma ReceiveIs(st: State, tx: Tx, feeValid: bool)
    requires ClashFree(st.pending) && forall i | 0 <= i < |st.pending| :: Hashed(st.pending[i], tx)
    ensures var p, end := st.pending, Step(st, OpReceive(tx, feeValid));
            && (tx.id in st.confirmed || (exists t :: t in p && t.id == tx.id) ==> end == st)
            && (forall j | 0 <= j < |p| ::
                  p[j].nonceProtected && tx.nonceProtected && p[j].sender == tx.sender && p[j].nonce == tx.nonce ==>
                  if tx.id !in st.confirmed && p[j].id != tx.id && feeValid && p[j].id !in st.applied && tx.fee > p[j].fee
                  then end == st.(pending := p[j := tx]) else end == st)
            && ((forall t | t in p :: t.id != tx.id && !(t.nonceProtected && tx.nonceProtected && t.sender == tx.sender && t.nonce == tx.nonce)) ==>
                  if tx.id !in st.confirmed && feeValid && |p| < 10_000 && CountFrom(p, tx.sender) < 512
                  then end == st.(pending := p + [tx]) else end == st)
  {
    var p := st.pending;
    forall j | 0 <= j < |p| && p[j].id == tx.id ensures Enqueue(st, tx, feeValid) == st {
      KnownIsIgnored(st, tx, feeValid, j);
    }
    forall j | 0 <= j < |p| && SameSlot(p[j], tx) && p[j].id != tx.id ensures FirstClash(p, tx) == j {
      SlotIsFirstClash(p, tx, j);
    }
  }

  lemma SlotIsFirstClash(p: seq<Tx>, tx: Tx, j: nat)
    requires ClashFree(p) && j < |p| && SameSlot(p[j], tx) && p[j].id != tx.id
    requires forall i | 0 <= i < |p| :: Hashed(p[i], tx)
    ensures FirstClash(p, tx) == j
  {
    var i := FirstClash(p, tx);
    assert i <= j && Hashed(p[i], tx);
    assert i < j ==> Clash(p[i], p[j]);
  }

  /** A confirmed transaction is never pending again, however often it is received or recorded. */
  lemma {:induction false} ConfirmedStaysOut(st: State, ops: seq<Op>)
    requires forall t | t in st.pending :: t.id !in st.confirmed
    ensures st.confirmed <= Run(st, ops).confirmed
    ensures forall t | t in Run(st, ops).pending :: t.id !in Run(st, ops).confirmed
    decreases |ops|
  {
    if ops != [] {
      ConfirmedStepsOut(st, ops[0]);
      ConfirmedStaysOut(Step(st, ops[0]), ops[1..]);
    }
  }

  /** A block's transactions leave the pool for good: they are applied and confirmed, what stays pending is
      all the rest in its order, and no later step brings one of them back. */
  lemma BlockIsForGood(st: State, ids: set<Id>, ops: seq<Op>)
    requires forall t | t in st.pending :: t.id !in st.confirmed
    ensures var mid, end := Step(st, OpBlock(ids)), Run(Step(st, OpBlock(ids)), ops);
            && ids <= mid.applied && ids <= mid.confirmed <= end.confirmed && st.applied <= mid.applied
            && (forall t :: t in mid.pending <==> t in st.pending && t.id !in ids)
            && forall t | t in end.pending :: t.id !in ids
  {
    ConfirmedStepsOut(st, OpBlock(ids));
    ConfirmedStaysOut(Step(st, OpBlock(ids)), ops);
  }

  lemma ConfirmedStepsOut(st: State, op: Op)
    requires forall t | t in st.pending :: t.id !in st.confirmed
    ensures st.confirmed <= Step(st, op).confirmed
    ensures forall t | t in Step(st, op).pending :: t.id !in Step(st, op).confirmed
  {
  }

  lemma {:induction false} CountWithout(p: seq<Tx>, ids: set<Id>, a: Addr)
    ensures CountFrom(Without(p, ids), a) <= CountFrom(p, a) && |Without(p, ids)| <= |p|
  {
    if p != [] {
      var n := |p| - 1;
      CountWithout(p[..n], ids, a);
      var rest := Without(p[..n], ids);
      assert (rest + [p[n]])[..|rest|] == rest;
    }
  }

  lemma {:induction false} WithoutClashFree(p: seq<Tx>, ids: set<Id>)
    requires ClashFree(p)
    ensures ClashFree(Without(p, ids))
  {
    if p != [] {
      var n := |p| - 1;
      WithoutClashFree(p[..n], ids);
      var rest := Without(p[..n], ids);
      forall i | 0 <= i < |rest| ensures !Clash(rest[i], p[n]) {
        assert rest[i] in p[..n];
      }
    }
  }

  lemma WithoutKeepsInv(st: State, ids: set<Id>)
    requires Inv(st)
    ensures Inv(st.(pending := Without(st.pending, ids)))
  {
    WithoutClashFree(st.pending, ids);
    forall a ensures CountFrom(Without(st.pending, ids), a) <= MAX_PER_SENDER { CountWithout(st.pending, ids, a); }
    CountWithout(st.pending, ids, "");
  }

  lemma StepKeepsInv(st: State, op: Op)
    requires Inv(st) && NewTx(st, op)
    ensures Inv(Step(st, op))
  {
    match op
    case OpReceive(tx, v) => EnqueueKeepsInv(st, tx, v);
    case OpRecord(tx, v) => EnqueueKeepsInv(st, tx, v);
    case OpWithdraw(id) => WithoutKeepsInv(st, {id});
    case OpBlock(ids) => WithoutKeepsInv(st, ids);
  }

  /** In every run no two pending transactions share an id, or a sender and protected nonce, and
      both size limits hold. */
  lemma {:induction false} RunKeepsInv(st: State, ops: seq<Op>)
    requires Inv(st) && AllHashed(st, ops)
    ensures Inv(Run(st, ops))
    decreases |ops|
  {
    if ops != [] {
      StepKeepsInv(st, ops[0]);
      RunKeepsInv(Step(st, ops[0]), ops[1..]);
    }
  }

  predicate Removes(op: Op, id: Id) {
    match op
    case OpWithdraw(i) => i == id
    case OpBlock(ids) => id in ids
    case _ => false
  }

  lemma StepKeepsApplied(st: State, op: Op, t: Tx)
    requires t in st.pending && t.id in st.applied && !Removes(op, t.id)
    ensures t in Step(st, op).pending && t.id in Step(st, op).applied
  {
    if op.OpReceive? || op.OpRecord? {
      var k :| 0 <= k < |st.pending| && st.pending[k] == t;
      var end := Step(st, op).pending;
      assert k < |end| && end[k] == t;
    }
  }

  /** Applied transactions are never replaced: over every run one leaves only in a block or when it
      is withdrawn by name. */
  lemma {:induction false} AppliedIsNeverReplaced(st: State, ops: seq<Op>, t: Tx)
    requires t in st.pending && t.id in st.applied
    requires forall k | 0 <= k < |ops| :: !Removes(ops[k], t.id)
    ensures t in Run(st, ops).pending && t.id in Run(st, ops).applied
    decreases |ops|
  {
    if ops != [] {
      StepKeepsApplied(st, ops[0], t);
      AppliedIsNeverReplaced(Step(st, ops[0]), ops[1..], t);
    }
  }

  /** A protected slot is given up only to a strictly higher fee. */
  lemma SlotFeeOnlyRises(st: State, tx: Tx, feeValid: bool, t: Tx)
    requires t in st.pending
    ensures t in Enqueue(st, tx, feeValid).pending
            || (tx in Enqueue(st, tx, feeValid).pending && SameSlot(t, tx) && tx.fee > t.fee && t.id !in st.applied)
  {
    var k :| 0 <= k < |st.pending| && st.pending[k] == t;
    var end := Enqueue(st, tx, feeValid).pending;
    var i := FirstClash(st.pending, tx);
    assert k != i ==> k < |end| && end[k] == t;
    assert k == i && end != st.pending ==> end[i] == tx;
  }

  // ---------------------------------------------------------------- the pool in place

  class Pool {
    var pending: seq<Tx>
    var applied: set<Id>
    var confirmed: set<Id>

    function View(): State
      reads this
    {
      State(pending, applied, confirmed)
    }

    method EnqueuePending(tx: Tx, feeValid: bool) returns (outcome: Outcome)
      modifies this`pending
      ensures outcome == Admit(old(View()), tx, feeValid)
      ensures View() == Enqueue(old(View()), tx, feeValid)
    {
      if tx.id in confirmed { return Ignored; }
      if !feeValid { return Refused; }
      ghost var clash := FirstClash(pending, tx);
      var i := 0;
      while i < |pending|
        invariant 0 <= i <= clash && pending == old(pending)
      {
        var other := pending[i];
        if other.id == tx.id { return Ignored; }
        if SameSlot(other, tx) {
          if other.id in applied || tx.fee <= other.fee { return Refused; }
          pending := pending[i := tx];
          return Accepted(pending);
        }
        i := i + 1;
      }
      if |pending| >= MAX_TXS { return Refused; }
      var count := SenderCount(tx.sender);
      if count >= MAX_PER_SENDER { return Refused; }
      pending := pending + [tx];
      return Accepted(pending);
    }

    method SenderCount(a: Addr) returns (count: nat)
      ensures count == CountFrom(pending, a)
    {
      count := 0;
      var i := 0;
      while i < |pending|
        invariant 0 <= i <= |pending| && count == CountFrom(pending[..i], a)
      {
        assert pending[..i + 1][..i] == pending[..i];
        if pending[i].sender == a { count := count + 1; }
        i := i + 1;
      }
      assert pending[..i] == pending;
    }

    method Record(tx: Tx, feeValid: bool)
      modifies this
      ensures View() == Step(old(View()), OpRecord(tx, feeValid))
    {
      var outcome := EnqueuePending(tx, feeValid);
      if outcome.Accepted? { applied := applied + {tx.id}; }
    }

    /** Takes one transaction out of the pool by id, stopping at the first that matches. */
    method Withdraw(id: Id)
      requires ClashFree(pending)
      modifies this
      ensures View() == Step(old(View()), OpWithdraw(id))
    {
      var i := 0;
      while i < |pending|
        invariant 0 <= i <= |pending| && View() == old(View())
        invariant forall k | 0 <= k < i :: pending[k].id != id
      {
        if pending[i].id == id {
          WithoutOne(pending, i);
          assert pending[i] in pending;
          pending := pending[..i] + pending[i + 1..];
          applied := applied - {id};
          return;
        }
        i := i + 1;
      }
    }

    /** Keeps what a block has not taken. */
    method RemovePending(ids: set<Id>)
      modifies this`pending
      ensures View() == old(View()).(pending := Without(old(pending), ids))
    {
      var kept: seq<Tx> := [];
      var i := 0;
      while i < |pending|
        invariant 0 <= i <= |pending| && kept == Without(pending[..i], ids)
      {
        assert pending[..i + 1][..i] == pending[..i];
        if pending[i].id !in ids { kept := kept + [pending[i]]; }
        i := i + 1;
      }
      assert pending[..i] == pending;
      pending := kept;
    }
  }

  lemma {:induction false} WithoutNone(p: seq<Tx>, id: Id)
    requires forall k | 0 <= k < |p| :: p[k].id != id
    ensures Without(p, {id}) == p
  {
    if p != [] {
      WithoutNone(p[..|p| - 1], id);
      assert p[..|p| - 1] + [p[|p| - 1]] == p;
    }
  }

  lemma LastKept(p: seq<Tx>, i: nat)
    requires i < |p| - 1
    ensures p[..|p| - 1][..i] + p[..|p| - 1][i + 1..] + [p[|p| - 1]] == p[..i] + p[i + 1..]
  {
  }

  /** Without clashes, leaving out an id leaves out one position. */
  lemma {:induction false} WithoutOne(p: seq<Tx>, i: nat)
    requires ClashFree(p) && i < |p|
    ensures Without(p, {p[i].id}) == p[..i] + p[i + 1..]
  {
    var n := |p| - 1;
    if i == n {
      WithoutNone(p[..n], p[i].id);
    } else {
      WithoutOne(p[..n], i);
      assert !Clash(p[i], p[n]);
      LastKept(p, i);
    }
  }
}
