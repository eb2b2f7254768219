/** The storage reward index: a reward-per-weight accumulator with a carried remainder.

    Miners are settled lazily: a block only moves the global index, and a miner's reward is
    computed when the miner is next touched. The reference here is a `Book` that pays every
    miner eagerly, block by block; lazy settlement agrees with it up to one base unit a visit. */
module RewardIndex {
  import opened Numbers
  import opened Sums

  const SCALE: nat := 1_000_000_000_000_000_000
  const FUND_CAP: nat := 2_000_000_000 * TOKEN_UNIT
  const DEFAULT_STORAGE_PER_BLOCK: nat := 70 * TOKEN_UNIT

  datatype Status = Active | Degraded | Jailed | Exiting | Exited

  /** The reward fields of a miner record; `index` is absent where the record's string is empty. */
  datatype Miner = Miner(status: Status, effectiveWeight: nat, usedBytes: nat,
                         index: Option<nat>, accrued: nat, settled: nat)

  datatype State = State(miners: map<Addr, Miner>, index: nat, remainder: nat,
                         pool: nat, fund: nat, released: nat)

  // ---------------------------------------------------------------- the operations, as functions

  function Weight(m: Miner): nat {
    if m.status in {Exiting, Exited, Jailed} then 0
    else if m.effectiveWeight == 0 && m.usedBytes > 0 && m.status == Active then m.usedBytes
    else m.effectiveWeight
  }

  function WeightAt(a: Addr, m: Miner): int { Weight(m) }

  ghost function TotalWeight(miners: map<Addr, Miner>): (w: nat) {
    SumNonNegative(miners, WeightAt);
    Sum(miners, WeightAt)
  }

  /** Scaled reward a miner has earned since its own index was last moved. */
  function Pending(g: nat, m: Miner): int {
    if m.index.Some? && m.index.value <= g then (g - m.index.value) * Weight(m) else 0
  }

  function Unsettled(g: nat, m: Miner): nat {
    if m.index.None? || Weight(m) == 0 || g <= m.index.value then 0
    else
      assert (g - m.index.value) * Weight(m) >= 0;
      Min((g - m.index.value) * Weight(m) / SCALE, MAX_U64)
  }

  function Accrued(g: nat, m: Miner): Miner {
    if m.index.None? then m.(index := Some(g))
    else m.(index := Some(g), accrued := SatAdd(m.accrued, Unsettled(g, m)))
  }

  function Settled(g: nat, m: Miner): Miner {
    var n := Accrued(g, m);
    n.(accrued := 0, settled := SatAdd(n.settled, n.accrued))
  }

  /** The part of a gross release that still fits under the permanent fund's lifetime cap. */
  function Injection(gross: nat, bps: nat, fund: nat): (r: nat)
    ensures r <= gross
    ensures r > 0 ==> fund + r <= FUND_CAP
  {
    if gross == 0 || bps == 0 || fund >= FUND_CAP then 0
    else
      var b := Min(bps, 10000);
      DivBound(gross, b, 10000);
      assert WrapMul(gross, b) / 10000 <= gross by { DivMono(WrapMul(gross, b), gross * b, 10000); }
      Min(WrapMul(gross, b) / 10000, FUND_CAP - fund)
  }

  /** One block's release out of the storage pool. */
  datatype Block = Block(release: nat, fundShare: nat, share: nat, numerator: nat, increment: nat, rest: nat)

  function BlockOf(st: State, w: nat, perBlock: nat, bps: nat): (b: Block)
    requires w > 0
    ensures b.share + b.fundShare == b.release <= st.pool
    ensures b.numerator == b.share * SCALE + st.remainder == b.increment * w + b.rest && b.rest < w
  {
    var release := Min(if perBlock == 0 then DEFAULT_STORAGE_PER_BLOCK else perBlock, st.pool);
    var fundShare := Injection(release, bps, st.fund);
    var share := release - fundShare;
    var numerator := share * SCALE + st.remainder;
    DivisionLaw(numerator, w);
    Block(release, fundShare, share, numerator, numerator / w, numerator % w)
  }

  ghost function Release(st: State, perBlock: nat, bps: nat): State {
    var w := TotalWeight(st.miners);
    if st.pool == 0 || w == 0 then st
    else
      var b := BlockOf(st, w, perBlock, bps);
      if b.increment == 0 then st.(remainder := b.rest)
      else st.(index := st.index + b.increment, remainder := b.rest, pool := st.pool - b.release,
               fund := SatAdd(st.fund, b.fundShare), released := SatAdd(st.released, b.release))
  }

  /** Steps of the ledger. `Reweigh` accrues first and then stores any new weight inputs;
      `Penalise` is a status or byte-count change made without accruing, which only lowers a weight. */
  datatype Op =
    | OpRelease(perBlock: nat, bps: nat)
    | OpAccrue(a: Addr)
    | OpSettle(a: Addr)
    | OpReweigh(a: Addr, status: Status, effectiveWeight: nat, usedBytes: nat)
    | OpPenalise(a: Addr, status: Status, usedBytes: nat)
    | OpRegister(a: Addr)

  function Reweighed(g: nat, m: Miner, s: Status, w: nat, u: nat): Miner {
    Accrued(g, m).(status := s, effectiveWeight := w, usedBytes := u)
  }

  function Penalised(m: Miner, s: Status, u: nat): Miner {
    var n := m.(status := s, usedBytes := u);
    if Weight(n) <= Weight(m) then n else m
  }

  ghost function Step(st: State, op: Op): State {
    match op
    case OpRelease(p, bps) => Release(st, p, bps)
    case OpAccrue(a) =>
      if a in st.miners then st.(miners := st.miners[a := Accrued(st.index, st.miners[a])]) else st
    case OpSettle(a) =>
      if a in st.miners then st.(miners := st.miners[a := Settled(st.index, st.miners[a])]) else st
    case OpReweigh(a, s, w, u) =>
      if a in st.miners then st.(miners := st.miners[a := Reweighed(st.index, st.miners[a], s, w, u)]) else st
    case OpPenalise(a, s, u) =>
      if a in st.miners then st.(miners := st.miners[a := Penalised(st.miners[a], s, u)]) else st
    case OpRegister(a) =>
      if a in st.miners then st else st.(miners := st.miners[a := Miner(Active, 0, 0, Some(st.index), 0, 0)])
  }

  // ---------------------------------------------------------------- the eager reference

  /** What one miner is owed when every block is paid out at once, in scaled units, together
      with the rounding dropped at its visits and the reward it forfeited by penalties. */
  datatype Entry = Entry(eager: nat, visits: nat, dust: nat, forfeited: nat)

  /** `fed` counts whole base units handed to the index, `stalled` those of blocks that did not
      move it, and `unclaimed` the scaled reward that went to miners without an index. */
  datatype Book = Book(entries: map<Addr, Entry>, fed: nat, stalled: nat, unclaimed: nat)

  function Visit(g: nat, m: Miner, e: Entry): Entry {
    if m.index.None? || Pending(g, m) < 0 then e
    else e.(visits := e.visits + 1, dust := e.dust + Pending(g, m) % SCALE)
  }

  function Forfeit(g: nat, m: Miner, n: Miner, e: Entry): Entry {
    if Pending(g, n) <= Pending(g, m) then e.(forfeited := e.forfeited + (Pending(g, m) - Pending(g, n))) else e
  }

  function UnindexedAt(a: Addr, m: Miner): int { if m.index.None? then Weight(m) else 0 }
  function IndexedAt(a: Addr, m: Miner): int { if m.index.Some? then Weight(m) else 0 }

  ghost function Paid(miners: map<Addr, Miner>, entries: map<Addr, Entry>, inc: nat): map<Addr, Entry> {
    map a | a in entries :: if a in miners then PaidEntry(miners[a], entries[a], inc) else entries[a]
  }

  function PaidEntry(m: Miner, e: Entry, inc: nat): Entry {
    assert inc * Weight(m) >= 0;
    if m.index.Some? then e.(eager := e.eager + inc * Weight(m)) else e
  }

  ghost function Unindexed(miners: map<Addr, Miner>): nat {
    SumNonNegative(miners, UnindexedAt);
    Sum(miners, UnindexedAt)
  }

  ghost function BookStep(st: State, bk: Book, op: Op): Book {
    match op
    case OpRelease(p, bps) =>
      var w := TotalWeight(st.miners);
      if st.pool == 0 || w == 0 then bk
      else
        var b := BlockOf(st, w, p, bps);
        Book(Paid(st.miners, bk.entries, b.increment), bk.fed + b.share,
             bk.stalled + (if b.increment == 0 then b.share else 0),
             bk.unclaimed + b.increment * Unindexed(st.miners))
    case OpRegister(a) =>
      if a in st.miners then bk else bk.(entries := bk.entries[a := Entry(0, 0, 0, 0)])
    case OpPenalise(a, s, u) =>
      if a !in st.miners || a !in bk.entries then bk
      else bk.(entries := bk.entries[a := Forfeit(st.index, st.miners[a], Penalised(st.miners[a], s, u), bk.entries[a])])
    case _ =>
      if op.a !in st.miners || op.a !in bk.entries then bk
      else bk.(entries := bk.entries[op.a := Visit(st.index, st.miners[op.a], bk.entries[op.a])])
  }

  ghost function Run(st: State, ops: seq<Op>): State
    decreases |ops|
  {
    if ops == [] then st else Run(Step(st, ops[0]), ops[1..])
  }

  ghost function BookRun(st: State, bk: Book, ops: seq<Op>): Book
    decreases |ops|
  {
    if ops == [] then bk else BookRun(Step(st, ops[0]), BookStep(st, bk, ops[0]), ops[1..])
  }

  // ---------------------------------------------------------------- what every run keeps

  function EagerAt(a: Addr, e: Entry): int { e.eager }

  /** Each miner's lazy account balances its eager entry to the last scaled unit. */
  ghost predicate Balanced(g: nat, m: Miner, e: Entry) {
    && (m.index.Some? ==> m.index.value <= g)
    && SCALE * (m.accrued + m.settled) + Pending(g, m) + e.dust + e.forfeited == e.eager
    && e.dust <= (SCALE - 1) * e.visits
  }

  ghost predicate Inv(st: State, bk: Book) {
    && bk.entries.Keys == st.miners.Keys
    && (forall a | a in st.miners :: Balanced(st.index, st.miners[a], bk.entries[a]))
    && Sum(bk.entries, EagerAt) + bk.unclaimed + st.remainder == SCALE * bk.fed
  }

  lemma PendingNonNegative(g: nat, m: Miner)
    ensures 0 <= Pending(g, m)
  {
    if m.index.Some? && m.index.value <= g { assert (g - m.index.value) * Weight(m) >= 0; }
  }

  /** While what was fed fits in a uint64, neither the cap on one settlement nor the
      saturating addition to the miner's account ever takes effect. */
  lemma VisitKeepsBalance(g: nat, m: Miner, e: Entry, fed: nat)
    requires Balanced(g, m, e) && e.eager <= SCALE * fed && fed <= MAX_U64
    ensures Balanced(g, Accrued(g, m), Visit(g, m, e))
    ensures Balanced(g, Settled(g, m), Visit(g, m, e))
    ensures m.index.Some? ==> Accrued(g, m).accrued == m.accrued + Pending(g, m) / SCALE
    ensures m.index.None? ==> Accrued(g, m).accrued == m.accrued
  {
    PendingNonNegative(g, m);
    if m.index.Some? {
      var p := Pending(g, m);
      assert p == SCALE * (p / SCALE) + p % SCALE;
      if Weight(m) == 0 { assert p == 0; }
      assert SCALE * (m.accrued + m.settled + p / SCALE) <= SCALE * fed;
      assert Unsettled(g, m) == p / SCALE;
    }
  }

  /** A miner just moved to the global index has nothing pending, whatever its weight becomes. */
  lemma NothingPendingAtIndex(g: nat, m: Miner, s: Status, w: nat, u: nat)
    requires m.index == Some(g)
    ensures Pending(g, m) == Pending(g, m.(status := s, effectiveWeight := w, usedBytes := u)) == 0
  {
  }

  lemma StepKeepsOneEntry(st: State, bk: Book, a: Addr, m: Miner, e: Entry)
    requires Inv(st, bk) && Balanced(st.index, m, e)
    requires e.eager == if a in st.miners then bk.entries[a].eager else 0
    ensures Inv(st.(miners := st.miners[a := m]), bk.(entries := bk.entries[a := e]))
  {
    SumPut(bk.entries, EagerAt, a, e);
  }

  lemma EntryWithinFed(st: State, bk: Book, a: Addr)
    requires Inv(st, bk) && a in st.miners
    ensures bk.entries[a].eager <= SCALE * bk.fed
  {
    SumCovers(bk.entries, EagerAt, a);
  }

  lemma PaidKeepsBalance(g: nat, inc: nat, m: Miner, e: Entry)
    requires Balanced(g, m, e)
    ensures Balanced(g + inc, m, PaidEntry(m, e, inc))
  {
    if m.index.Some? {
      var w := Weight(m);
      assert (g + inc - m.index.value) * w == (g - m.index.value) * w + inc * w;
    }
  }

  lemma ReleaseKeepsInv(st: State, bk: Book, perBlock: nat, bps: nat)
    requires Inv(st, bk)
    ensures Inv(Release(st, perBlock, bps), BookStep(st, bk, OpRelease(perBlock, bps)))
  {
    var w := TotalWeight(st.miners);
    if st.pool != 0 && w != 0 {
      var b := BlockOf(st, w, perBlock, bps);
      forall a | a in st.miners
        ensures Balanced(st.index + b.increment, st.miners[a], PaidEntry(st.miners[a], bk.entries[a], b.increment))
      {
        PaidKeepsBalance(st.index, b.increment, st.miners[a], bk.entries[a]);
      }
      PaidAddsUp(st.miners, bk.entries, b.increment);
    }
  }

  lemma PaidAddsUp(miners: map<Addr, Miner>, entries: map<Addr, Entry>, inc: nat)
    requires entries.Keys == miners.Keys
    ensures Sum(Paid(miners, entries, inc), EagerAt) + inc * Unindexed(miners)
            == Sum(entries, EagerAt) + inc * TotalWeight(miners)
  {
    PaidMovesSum(miners, entries, inc);
    WeightSplits(miners);
    Distribute(inc, Sum(miners, IndexedAt), Sum(miners, UnindexedAt));
  }

  /** Paying eagerly moves the book by increment times the indexed weight. */
  lemma {:induction false} PaidMovesSum(miners: map<Addr, Miner>, entries: map<Addr, Entry>, inc: nat)
    requires entries.Keys == miners.Keys
    ensures Sum(Paid(miners, entries, inc), EagerAt) == Sum(entries, EagerAt) + inc * Sum(miners, IndexedAt)
    decreases miners.Keys
  {
    if miners.Keys == {} {
      SumEmpty(miners, IndexedAt);
      SumEmpty(entries, EagerAt);
      SumEmpty(Paid(miners, entries, inc), EagerAt);
      assert inc * 0 == 0;
    } else {
      var a :| a in miners.Keys;
      var m, rest := miners[a], Sum(miners - {a}, IndexedAt);
      SumPick(miners, IndexedAt, a);
      SumPick(entries, EagerAt, a);
      SumPick(Paid(miners, entries, inc), EagerAt, a);
      PaidWithout(miners, entries, inc, a);
      PaidMovesSum(miners - {a}, entries - {a}, inc);
      Distribute(inc, IndexedAt(a, m), rest);
      assert PaidEntry(m, entries[a], inc).eager == entries[a].eager + inc * IndexedAt(a, m) by {
        if m.index.None? { assert inc * 0 == 0; }
      }
    }
  }

  lemma PaidWithout(miners: map<Addr, Miner>, entries: map<Addr, Entry>, inc: nat, a: Addr)
    requires entries.Keys == miners.Keys
    ensures Paid(miners, entries, inc) - {a} == Paid(miners - {a}, entries - {a}, inc)
  {
  }

  lemma WeightSplits(miners: map<Addr, Miner>)
    ensures TotalWeight(miners) == Sum(miners, IndexedAt) + Sum(miners, UnindexedAt)
  {
    SumLinear(miners, 1, IndexedAt, 1, UnindexedAt, WeightAt);
  }

  lemma PenaliseKeepsBalance(g: nat, m: Miner, s: Status, u: nat, e: Entry)
    requires Balanced(g, m, e)
    ensures Balanced(g, Penalised(m, s, u), Forfeit(g, m, Penalised(m, s, u), e))
  {
    if m.index.Some? {
      MulMono(g - m.index.value, Weight(Penalised(m, s, u)), Weight(m));
    }
  }

  lemma StepKeepsInv(st: State, bk: Book, op: Op)
    requires Inv(st, bk) && bk.fed <= MAX_U64
    ensures Inv(Step(st, op), BookStep(st, bk, op))
  {
    match op {
      case OpRelease(p, bps) =>
        ReleaseKeepsInv(st, bk, p, bps);
      case OpRegister(a) =>
        if a !in st.miners {
          StepKeepsOneEntry(st, bk, a, Miner(Active, 0, 0, Some(st.index), 0, 0), Entry(0, 0, 0, 0));
        }
      case OpPenalise(a, s, u) =>
        if a in st.miners {
          PenaliseKeepsBalance(st.index, st.miners[a], s, u, bk.entries[a]);
          StepKeepsOneEntry(st, bk, a, Penalised(st.miners[a], s, u),
                            Forfeit(st.index, st.miners[a], Penalised(st.miners[a], s, u), bk.entries[a]));
        }
      case OpAccrue(a) => VisitStepKeepsInv(st, bk, op);
      case OpSettle(a) => VisitStepKeepsInv(st, bk, op);
      case OpReweigh(a, _, _, _) => VisitStepKeepsInv(st, bk, op);
    }
  }

  lemma VisitStepKeepsInv(st: State, bk: Book, op: Op)
    requires Inv(st, bk) && bk.fed <= MAX_U64
    requires op.OpAccrue? || op.OpSettle? || op.OpReweigh?
    ensures Inv(Step(st, op), BookStep(st, bk, op))
  {
    if op.a in st.miners {
      var m, e, n := st.miners[op.a], bk.entries[op.a], Step(st, op).miners[op.a];
      EntryWithinFed(st, bk, op.a);
      VisitKeepsBalance(st.index, m, e, bk.fed);
      if op.OpReweigh? {
        NothingPendingAtIndex(st.index, Accrued(st.index, m), op.status, op.effectiveWeight, op.usedBytes);
      }
      assert Balanced(st.index, n, Visit(st.index, m, e));
      StepKeepsOneEntry(st, bk, op.a, n, Visit(st.index, m, e));
    }
  }

  lemma {:induction false} FedOnlyGrows(st: State, bk: Book, ops: seq<Op>)
    ensures bk.fed <= BookRun(st, bk, ops).fed
    decreases |ops|
  {
    if ops != [] {
      FedOnlyGrows(Step(st, ops[0]), BookStep(st, bk, ops[0]), ops[1..]);
    }
  }

  /** Every run of releases, accruals, settlements, reweighings, penalties and registrations
      keeps the lazy ledger balanced against the eager book. */
  lemma {:induction false} RunKeepsInv(st: State, bk: Book, ops: seq<Op>)
    requires Inv(st, bk) && BookRun(st, bk, ops).fed <= MAX_U64
    ensures Inv(Run(st, ops), BookRun(st, bk, ops))
    decreases |ops|
  {
    if ops != [] {
      FedOnlyGrows(st, bk, ops);
      StepKeepsInv(st, bk, ops[0]);
      RunKeepsInv(Step(st, ops[0]), BookStep(st, bk, ops[0]), ops[1..]);
    }
  }

  // ---------------------------------------------------------------- consequences for whole runs

  function CreditAt(a: Addr, m: Miner): int { m.accrued + m.settled }
  ghost function PendingAt(g: nat): (Addr, Miner) -> int { (a: Addr, m: Miner) => Pending(g, m) }
  function VisitsAt(a: Addr, e: Entry): int { e.visits }
  function ForfeitedAt(a: Addr, e: Entry): int { e.forfeited }
  function DustAt(a: Addr, e: Entry): int { e.dust }

  /** Total reward held in the ledger, in scaled units: paid or accrued, still pending, and carried. */
  ghost function Held(st: State): int {
    SCALE * Sum(st.miners, CreditAt) + Sum(st.miners, PendingAt(st.index)) + st.remainder
  }

  lemma {:induction false} HeldPlusLosses(g: nat, miners: map<Addr, Miner>, entries: map<Addr, Entry>)
    requires entries.Keys == miners.Keys
    requires forall a | a in miners :: Balanced(g, miners[a], entries[a])
    ensures SCALE * Sum(miners, CreditAt) + Sum(miners, PendingAt(g)) + Sum(entries, DustAt) + Sum(entries, ForfeitedAt)
            == Sum(entries, EagerAt)
    ensures 0 <= Sum(entries, DustAt) <= (SCALE - 1) * Sum(entries, VisitsAt)
    ensures 0 <= Sum(entries, ForfeitedAt)
    decreases miners.Keys
  {
    if miners.Keys == {} {
      SumEmpty(miners, CreditAt);
      SumEmpty(miners, PendingAt(g));
      SumEmpty(entries, DustAt);
      SumEmpty(entries, ForfeitedAt);
      SumEmpty(entries, EagerAt);
      SumEmpty(entries, VisitsAt);
    } else {
      var a :| a in miners.Keys;
      SumPick(miners, CreditAt, a);
      SumPick(miners, PendingAt(g), a);
      SumPick(entries, DustAt, a);
      SumPick(entries, ForfeitedAt, a);
      SumPick(entries, EagerAt, a);
      SumPick(entries, VisitsAt, a);
      HeldPlusLosses(g, miners - {a}, entries - {a});
    }
  }

  ghost predicate Fresh(st: State) {
    && st.remainder == 0
    && forall a | a in st.miners :: var m := st.miners[a];
         m.accrued == 0 && m.settled == 0 && (m.index.Some? ==> m.index.value == st.index)
  }

  ghost function EmptyBook(st: State): Book {
    Book(map a | a in st.miners :: Entry(0, 0, 0, 0), 0, 0, 0)
  }

  lemma FreshIsBalanced(st: State)
    requires Fresh(st)
    ensures Inv(st, EmptyBook(st))
  {
    SumZero(EmptyBook(st).entries, EagerAt);
  }

  /** No run ever promises more than was fed, and the gap is exactly the rounding dropped at
      visits (less than one base unit each), penalties, and miners that carried no index. */
  lemma NeverOverpays(st: State, ops: seq<Op>)
    requires Fresh(st) && BookRun(st, EmptyBook(st), ops).fed <= MAX_U64
    ensures var end, bk := Run(st, ops), BookRun(st, EmptyBook(st), ops);
            var losses := Sum(bk.entries, DustAt) + Sum(bk.entries, ForfeitedAt) + bk.unclaimed;
            && Held(end) + losses == SCALE * bk.fed
            && Held(end) <= SCALE * bk.fed
            && Sum(bk.entries, DustAt) <= (SCALE - 1) * Sum(bk.entries, VisitsAt)
  {
    FreshIsBalanced(st);
    RunKeepsInv(st, EmptyBook(st), ops);
    var end, bk := Run(st, ops), BookRun(st, EmptyBook(st), ops);
    HeldPlusLosses(end.index, end.miners, bk.entries);
  }

  /** Lazy settlement agrees with eager payment for each miner separately: it is never ahead,
      and behind by less than one base unit per visit plus what penalties took. */
  lemma LazyAgreesWithEager(st: State, ops: seq<Op>, a: Addr)
    requires Fresh(st) && BookRun(st, EmptyBook(st), ops).fed <= MAX_U64
    requires a in Run(st, ops).miners
    ensures var end, bk := Run(st, ops), BookRun(st, EmptyBook(st), ops);
            && a in bk.entries
            && var m, e := end.miners[a], bk.entries[a];
            var lazy := SCALE * (m.accrued + m.settled) + Pending(end.index, m);
            lazy <= e.eager <= lazy + (SCALE - 1) * e.visits + e.forfeited
  {
    FreshIsBalanced(st);
    RunKeepsInv(st, EmptyBook(st), ops);
  }

  // ---------------------------------------------------------------- the true share

  /** Along the run the total weight stays `total` and the miner keeps an index and its weight `w`. */
  ghost predicate Steady(st: State, ops: seq<Op>, a: Addr, w: nat, total: nat)
    decreases |ops|
  {
    && a in st.miners && st.miners[a].index.Some? && Weight(st.miners[a]) == w && TotalWeight(st.miners) == total
    && (ops == [] || Steady(Step(st, ops[0]), ops[1..], a, w, total))
  }

  lemma ShareOfIncrement(inc: nat, w: nat, total: nat, n: nat, rest: nat)
    requires n == inc * total + rest
    ensures (inc * w) * total == w * (n - rest)
  {
  }

  /** One step pays a steady miner, eagerly, its exact fraction of what is fed less what is carried. */
  lemma StepIsProRata(st: State, bk: Book, op: Op, a: Addr, w: nat, total: nat)
    requires Steady(st, [], a, w, total) && total > 0 && a in bk.entries
    ensures var bk', end := BookStep(st, bk, op), Step(st, op);
            && a in bk'.entries
            && (bk'.entries[a].eager - bk.entries[a].eager) * total
               == w * (SCALE * (bk'.fed - bk.fed) + st.remainder - end.remainder)
  {
    if op.OpRelease? && st.pool > 0 {
      var b := BlockOf(st, total, op.perBlock, op.bps);
      ShareOfIncrement(b.increment, w, total, b.numerator, b.rest);
    }
  }

  /** Shares of two stretches add up to the share of both. */
  lemma AddShares(e0: int, e1: int, e2: int, total: nat, w: nat, f0: int, f1: int, f2: int, r0: int, r1: int, r2: int)
    requires (e1 - e0) * total == w * (SCALE * (f1 - f0) + r0 - r1)
    requires (e2 - e1) * total == w * (SCALE * (f2 - f1) + r1 - r2)
    ensures (e2 - e0) * total == w * (SCALE * (f2 - f0) + r0 - r2)
  {
    AddProducts(e1 - e0, e2 - e1, total, w, SCALE * (f1 - f0) + r0 - r1, SCALE * (f2 - f1) + r1 - r2);
  }

  lemma AddProducts(x: int, y: int, total: nat, w: nat, p: int, q: int)
    requires x * total == w * p && y * total == w * q
    ensures (x + y) * total == w * (p + q)
  {
  }

  lemma {:induction false} EagerIsProRata(st: State, bk: Book, ops: seq<Op>, a: Addr, w: nat, total: nat)
    requires Steady(st, ops, a, w, total) && total > 0 && a in bk.entries
    ensures var bk', end := BookRun(st, bk, ops), Run(st, ops);
            && a in bk'.entries
            && (bk'.entries[a].eager - bk.entries[a].eager) * total
               == w * (SCALE * (bk'.fed - bk.fed) + st.remainder - end.remainder)
    decreases |ops|
  {
    if ops != [] {
      var st1, bk1 := Step(st, ops[0]), BookStep(st, bk, ops[0]);
      StepIsProRata(st, bk, ops[0], a, w, total);
      EagerIsProRata(st1, bk1, ops[1..], a, w, total);
      var bk2, end := BookRun(st1, bk1, ops[1..]), Run(st1, ops[1..]);
      AddShares(bk.entries[a].eager, bk1.entries[a].eager, bk2.entries[a].eager, total, w,
                bk.fed, bk1.fed, bk2.fed, st.remainder, st1.remainder, end.remainder);
    }
  }

  lemma ScaleBetween(lazy: int, eager: int, slack: nat, total: nat)
    requires lazy <= eager <= lazy + slack
    ensures lazy * total <= eager * total <= (lazy + slack) * total
  {
    MulMono(total, lazy, eager);
    MulMono(total, eager, lazy + slack);
  }

  /** While weights are steady, each miner has its true share, weight over total weight, of all that
      was fed: never more, and less only by the rounding of its visits, what penalties took, and
      its part of the carried remainder. */
  lemma MinersGetTheirShare(st: State, ops: seq<Op>, a: Addr, w: nat, total: nat)
    requires Fresh(st) && BookRun(st, EmptyBook(st), ops).fed <= MAX_U64
    requires Steady(st, ops, a, w, total) && total > 0 && a in Run(st, ops).miners
    ensures var end, bk := Run(st, ops), BookRun(st, EmptyBook(st), ops);
            && a in bk.entries
            && var m, e := end.miners[a], bk.entries[a];
            var lazy := SCALE * (m.accrued + m.settled) + Pending(end.index, m);
            lazy * total <= w * (SCALE * bk.fed - end.remainder)
            <= (lazy + ((SCALE - 1) * e.visits + e.forfeited)) * total
  {
    var end, bk := Run(st, ops), BookRun(st, EmptyBook(st), ops);
    LazyAgreesWithEager(st, ops, a);
    EagerIsProRata(st, EmptyBook(st), ops, a, w, total);
    var m, e := end.miners[a], bk.entries[a];
    ScaleBetween(SCALE * (m.accrued + m.settled) + Pending(end.index, m), e.eager, (SCALE - 1) * e.visits + e.forfeited, total);
  }

  ghost predicate AllIndexed(st: State) { forall a | a in st.miners :: st.miners[a].index.Some? }

  /** Once every miner carries an index, none ever loses it and no reward goes unclaimed. */
  lemma {:induction false} IndexedRunsLoseNothing(st: State, bk: Book, ops: seq<Op>)
    requires AllIndexed(st)
    ensures AllIndexed(Run(st, ops)) && BookRun(st, bk, ops).unclaimed == bk.unclaimed
    decreases |ops|
  {
    if ops != [] {
      SumZero(st.miners, UnindexedAt);
      assert forall inc: nat :: inc * 0 == 0;
      IndexedRunsLoseNothing(Step(st, ops[0]), BookStep(st, bk, ops[0]), ops[1..]);
    }
  }

  // ---------------------------------------------------------------- the pool behind the index

  /** What leaves the pool in a block is what the fund and the index receive, exactly when the
      block moves the index or has no miner share; otherwise the share is handed to the
      remainder and the pool is not charged for it. */
  lemma ReleaseChargesPool(st: State, perBlock: nat, bps: nat)
    requires st.pool > 0 && TotalWeight(st.miners) > 0
    ensures var w := TotalWeight(st.miners);
            var b := BlockOf(st, w, perBlock, bps);
            var end := Release(st, perBlock, bps);
            && (st.pool - end.pool == b.fundShare + b.share <==> (b.share * SCALE + st.remainder >= w || b.release == 0))
            && (b.share * SCALE + st.remainder < w ==> end == st.(remainder := st.remainder + b.share * SCALE))
  {
    var w := TotalWeight(st.miners);
    var b := BlockOf(st, w, perBlock, bps);
    QuotientZero(b.numerator, w);
    DivisionLaw(b.numerator, w);
  }

  function PoolSpend(start: State, end: State): int { start.pool - end.pool }

  /** Two blocks of one unit each over 2 * SCALE of weight: the first stalls, the second pays
      two units to the miner, and the pool is charged for one. */
  lemma StalledBlockIsNotCharged(a: Addr)
    ensures var m := Miner(Active, 2 * SCALE, 0, Some(0), 0, 0);
            var st := State(map[a := m], 0, 0, 1, 0, 0);
            var end := Run(st, [OpRelease(1, 0), OpRelease(1, 0), OpSettle(a)]);
            && end.miners.Keys == {a} && end.miners[a].settled == 2
            && PoolSpend(st, end) == 1
  {
    var m := Miner(Active, 2 * SCALE, 0, Some(0), 0, 0);
    var st := State(map[a := m], 0, 0, 1, 0, 0);
    SumPick(st.miners, WeightAt, a);
    SumEmpty(st.miners - {a}, WeightAt);
    assert TotalWeight(st.miners) == 2 * SCALE;
    var s1 := Step(st, OpRelease(1, 0));
    assert s1 == st.(remainder := SCALE);
    var s2 := Step(s1, OpRelease(1, 0));
    assert s2 == State(map[a := m], 1, 0, 0, 0, 1);
    var ops := [OpRelease(1, 0), OpRelease(1, 0), OpSettle(a)];
    assert ops[1..] == [OpRelease(1, 0), OpSettle(a)] && ops[1..][1..] == [OpSettle(a)] && ops[1..][1..][1..] == [];
    var s3 := Step(s2, OpSettle(a));
    assert Unsettled(1, m) == 2;
    assert Run(s3, []) == s3;
    assert Run(s2, [OpSettle(a)]) == s3;
    assert Run(s1, ops[1..]) == s3;
  }

  /** Over a run, the pool is charged for all that was fed except the stalled shares. */
  lemma {:induction false} PoolChargedForFed(st: State, bk: Book, ops: seq<Op>)
    requires st.fund <= FUND_CAP
    ensures var end, bk' := Run(st, ops), BookRun(st, bk, ops);
            && end.fund <= FUND_CAP
            && PoolSpend(st, end) == (end.fund - st.fund) + (bk'.fed - bk.fed) - (bk'.stalled - bk.stalled)
    decreases |ops|
  {
    if ops != [] {
      var st1, bk1 := Step(st, ops[0]), BookStep(st, bk, ops[0]);
      PoolChargedForFed(st1, bk1, ops[1..]);
    }
  }

  // ---------------------------------------------------------------- recomputing every weight

  function Recomputed(g: nat, a: Addr, m: Miner, weigh: (Addr, Miner) -> nat): Miner {
    Accrued(g, m).(effectiveWeight := weigh(a, Accrued(g, m)))
  }

  function RecomputeOps(st: State, weigh: (Addr, Miner) -> nat, order: seq<Addr>): seq<Op>
    requires forall a | a in order :: a in st.miners
  {
    seq(|order|, i requires 0 <= i < |order| =>
          var m := st.miners[order[i]];
          OpReweigh(order[i], m.status, weigh(order[i], Accrued(st.index, m)), m.usedBytes))
  }

  /** Recomputing weights is a run of reweighings whose outcome does not depend on the order in
      which the map yields the miners, so it inherits everything proved about runs. */
  lemma {:induction false} RecomputeOrderIrrelevant(st: State, weigh: (Addr, Miner) -> nat, order: seq<Addr>)
    requires forall a | a in order :: a in st.miners
    requires forall i, j | 0 <= i < j < |order| :: order[i] != order[j]
    ensures Run(st, RecomputeOps(st, weigh, order)) ==
            st.(miners := map a | a in st.miners ::
                  if a in order then Recomputed(st.index, a, st.miners[a], weigh) else st.miners[a])
    decreases |order|
  {
    var ops := RecomputeOps(st, weigh, order);
    if order == [] {
      assert st.miners == map a | a in st.miners :: st.miners[a];
    } else {
      var st1 := Step(st, ops[0]);
      assert forall a | a in order[1..] :: a in order;
      assert ops[1..] == RecomputeOps(st1, weigh, order[1..]);
      RecomputeOrderIrrelevant(st1, weigh, order[1..]);
      assert forall a :: a in order <==> a == order[0] || a in order[1..];
    }
  }

  // ---------------------------------------------------------------- who earns, and how much

  /** The weight at which a miner earns, status by status: nothing once it is jailed or leaving;
      otherwise its effective weight, or its used bytes when it is active and has no effective weight. */
  ghost predicate Earns(m: Miner, w: nat) {
    && (m.status in {Jailed, Exiting, Exited} ==> w == 0)
    && (m.status == Degraded ==> w == m.effectiveWeight)
    && (m.status == Active && m.effectiveWeight > 0 ==> w == m.effectiveWeight)
    && (m.status == Active && m.effectiveWeight == 0 ==> w == m.usedBytes)
  }

  lemma EarnsOneWeight(m: Miner, w: nat)
    ensures Earns(m, w) <==> w == Weight(m)
  {
  }

  function Itself(a: Addr, w: nat): int { w }

  /** A block release in the values of the state: what leaves the pool, what the fund takes of it
      (`x` is the wrapped product in whole basis points, kept under the lifetime cap), and the rest
      divided over the weights of the miners that earn, remainder carried. */
  lemma ReleaseIsExact(st: State, weights: map<Addr, nat>, perBlock: nat, bps: nat, gross: nat, x: nat)
    requires weights.Keys == st.miners.Keys && forall a | a in weights :: Earns(st.miners[a], weights[a])
    requires gross == Min(if perBlock > 0 then perBlock else 7_000_000_000, st.pool)
    requires 10000 * x <= gross * Min(bps, 10000) % TWO64 < 10000 * (x + 1)
    ensures var total, end := Sum(weights, Itself), Step(st, OpRelease(perBlock, bps));
            var toFund := if st.fund >= 200_000_000_000_000_000 then 0 else Min(x, 200_000_000_000_000_000 - st.fund);
            var n := (gross - toFund) * 1_000_000_000_000_000_000 + st.remainder;
            && end.miners == st.miners
            && (st.pool == 0 || total == 0 ==> end == st)
            && (st.pool > 0 && 0 <= n < total ==> end == st.(remainder := n))
            && (st.pool > 0 && 0 < total <= n ==>
                  && (end.index - st.index) * total + end.remainder == n && end.remainder < total
                  && end.pool == st.pool - gross
                  && end.fund == SatAdd(st.fund, toFund) && end.released == SatAdd(st.released, gross))
  {
    forall a | a in weights ensures Itself(a, weights[a]) == WeightAt(a, st.miners[a]) {
      EarnsOneWeight(st.miners[a], weights[a]);
    }
    SumCongruent(weights, Itself, st.miners, WeightAt);
    var toFund := if st.fund >= FUND_CAP then 0 else Min(x, FUND_CAP - st.fund);
    InjectionIs(gross, bps, st.fund, x);
    if st.pool > 0 && TotalWeight(st.miners) > 0 { BlockIs(st, TotalWeight(st.miners), perBlock, bps, gross, toFund); }
  }

  lemma BlockIs(st: State, total: nat, perBlock: nat, bps: nat, gross: nat, toFund: nat)
    requires total > 0 && gross == Min(if perBlock > 0 then perBlock else 7_000_000_000, st.pool)
    requires toFund == Injection(gross, bps, st.fund)
    ensures var b, n := BlockOf(st, total, perBlock, bps), (gross - toFund) * SCALE + st.remainder;
            && b.release == gross && b.fundShare == toFund && n == b.increment * total + b.rest && b.rest < total
            && (b.increment == 0 <==> n < total) && (b.increment == 0 ==> b.rest == n)
  {
    QuotientZero((gross - toFund) * SCALE + st.remainder, total);
  }

  /** The fund's part of a release, between its two neighbours in basis points. */
  lemma InjectionIs(gross: nat, bps: nat, fund: nat, x: nat)
    requires 10000 * x <= gross * Min(bps, 10000) % TWO64 < 10000 * (x + 1)
    ensures Injection(gross, bps, fund) == if fund >= FUND_CAP then 0 else Min(x, FUND_CAP - fund)
  {
    var product := gross * Min(bps, 10000);
    assert product == 0 ==> x == 0;
    if gross == 0 || bps == 0 { assert product == 0; }
    QuotientIs(product % TWO64, 10000, x);
  }

  /** A jailed or leaving miner earns nothing from a block, whatever weight its record still holds,
      and without it every other miner would earn the same. */
  lemma IneligibleEarnsNothing(st: State, a: Addr, perBlock: nat, bps: nat)
    requires a in st.miners && st.miners[a].status in {Jailed, Exiting, Exited}
    requires st.miners[a].accrued + st.miners[a].settled <= MAX_U64
    ensures var m, after := st.miners[a], Step(st, OpRelease(perBlock, bps));
            && Step(after, OpAccrue(a)).miners[a] == m.(index := Some(after.index))
            && Step(after, OpSettle(a)).miners[a] == m.(index := Some(after.index), accrued := 0, settled := m.settled + m.accrued)
    ensures var without := st.(miners := st.miners - {a});
            Step(without, OpRelease(perBlock, bps)) == Step(st, OpRelease(perBlock, bps)).(miners := st.miners - {a})
    ensures forall b | b in st.miners && b != a ::
              var without := st.(miners := st.miners - {a});
              && Step(Step(without, OpRelease(perBlock, bps)), OpAccrue(b)).miners[b]
                 == Step(Step(st, OpRelease(perBlock, bps)), OpAccrue(b)).miners[b]
  {
    SumPick(st.miners, WeightAt, a);
    var without := st.(miners := st.miners - {a});
    assert TotalWeight(without.miners) == TotalWeight(st.miners);
  }

  /** Any other miner gains the index movement since its last visit times its weight, scaled down;
      a miner without an index, or ahead of the global one, gains nothing. */
  lemma EligibleEarns(st: State, a: Addr, perBlock: nat, bps: nat, w: nat)
    requires a in st.miners && st.miners[a].status in {Active, Degraded}
    requires w == if st.miners[a].status == Active && st.miners[a].effectiveWeight == 0 then st.miners[a].usedBytes
                  else st.miners[a].effectiveWeight
    ensures var m, after := st.miners[a], Step(st, OpRelease(perBlock, bps));
            var gain := if m.index.Some? && m.index.value <= after.index
                        then (after.index - m.index.value) * w / 1_000_000_000_000_000_000 else 0;
            m.accrued + m.settled + gain <= MAX_U64 ==>
              && Step(after, OpAccrue(a)).miners[a] == m.(index := Some(after.index), accrued := m.accrued + gain)
              && Step(after, OpSettle(a)).miners[a]
                 == m.(index := Some(after.index), accrued := 0, settled := m.settled + m.accrued + gain)
  {
    EarnsOneWeight(st.miners[a], w);
    var after := Step(st, OpRelease(perBlock, bps));
    AccruedGain(after.index, st.miners[a], w);
  }

  lemma AccruedGain(g: nat, m: Miner, w: nat)
    requires w == Weight(m)
    ensures var gain := if m.index.Some? && m.index.value <= g then (g - m.index.value) * w / SCALE else 0;
            gain <= MAX_U64 ==> (if m.index.Some? then Unsettled(g, m) else 0) == gain
  {
    if m.index.Some? && m.index.value <= g {
      assert (g - m.index.value) * w >= 0;
      if w == 0 || m.index.value == g { assert (g - m.index.value) * w == 0; }
    }
  }

  /** Storing new weight inputs first accrues at the old ones; a penalty does not accrue and is refused where
      it would raise the weight; a new miner starts at the global index with nothing. */
  lemma WeightChangesAre(st: State, a: Addr, s: Status, w: nat, u: nat, before: nat, after: nat)
    ensures a in st.miners ==>
              && var m, accrued := Step(st, OpReweigh(a, s, w, u)).miners[a], Step(st, OpAccrue(a)).miners[a];
              && m.status == s && m.effectiveWeight == w && m.usedBytes == u
              && m.index == Some(st.index) && m.accrued == accrued.accrued && m.settled == accrued.settled
    ensures a in st.miners && Earns(st.miners[a], before) && Earns(st.miners[a].(status := s, usedBytes := u), after) ==>
              Step(st, OpPenalise(a, s, u)).miners[a]
              == if after <= before then st.miners[a].(status := s, usedBytes := u) else st.miners[a]
    ensures a !in st.miners ==>
              && a in Step(st, OpRegister(a)).miners
              && var m := Step(st, OpRegister(a)).miners[a];
              && m.status == Active && m.effectiveWeight == m.usedBytes == m.accrued == m.settled == 0 && m.index == Some(st.index)
  {
  }

  // ---------------------------------------------------------------- the store

  /** The mutable record the operations work on. */
  class RewardLedger {
    var miners: map<Addr, Miner>
    var index: nat
    var remainder: nat
    var pool: nat
    var fund: nat
    var released: nat

    ghost function View(): State
      reads this
    {
      State(miners, index, remainder, pool, fund, released)
    }

    /** Account fields are uint64 words. */
    ghost predicate Words()
      reads this
    {
      forall a | a in miners :: miners[a].accrued <= MAX_U64 && miners[a].settled <= MAX_U64
    }

    constructor (pool: nat)
      ensures View() == State(map[], 0, 0, pool, 0, 0) && Fresh(View())
    {
      miners, index, remainder, this.pool, fund, released := map[], 0, 0, pool, 0, 0;
    }

    /** Adds the weights in whatever order the map yields its keys. */
    method EligibleWeight() returns (total: nat)
      ensures total == TotalWeight(miners)
    {
      total := 0;
      var todo := miners.Keys;
      ghost var left := miners;
      while todo != {}
        invariant todo == left.Keys <= miners.Keys
        invariant forall a | a in left :: left[a] == miners[a]
        invariant total + Sum(left, WeightAt) == Sum(miners, WeightAt)
      {
        var a :| a in todo;
        SumPick(left, WeightAt, a);
        total := total + Weight(miners[a]);
        todo, left := todo - {a}, left - {a};
      }
      SumEmpty(left, WeightAt);
    }

    method ReleasePerBlock(perBlock: nat, bps: nat)
      modifies this
      ensures View() == Release(old(View()), perBlock, bps)
    {
      if pool == 0 { return; }
      var total := EligibleWeight();
      if total == 0 { return; }
      var release := if perBlock == 0 then DEFAULT_STORAGE_PER_BLOCK else perBlock;
      if release > pool { release := pool; }
      var fundShare := Injection(release, bps, fund);
      var numerator := (release - fundShare) * SCALE + remainder;
      ghost var b := BlockOf(View(), total, perBlock, bps);
      assert b.release == release && b.fundShare == fundShare && b.numerator == numerator;
      var increment: nat := numerator / total;
      remainder := numerator % total;
      if increment == 0 { return; }
      index := index + increment;
      pool := pool - release;
      fund := SatAdd(fund, fundShare);
      released := SatAdd(released, release);
    }

    method Accrue(a: Addr) returns (amount: nat)
      requires Words()
      modifies this`miners
      ensures Words() && View() == Step(old(View()), OpAccrue(a))
      ensures amount == if a in old(miners) then Unsettled(index, old(miners)[a]) else 0
    {
      if a !in miners { return 0; }
      var m := miners[a];
      if m.index.None? {
        miners := miners[a := m.(index := Some(index))];
        return 0;
      }
      amount := Unsettled(index, m);
      m := m.(index := Some(index));
      if amount > 0 { m := m.(accrued := SatAdd(m.accrued, amount)); }
      miners := miners[a := m];
    }

    /** Accrues, then moves the whole accrued amount to the miner; the amount is what gets vested. */
    method Settle(a: Addr) returns (amount: nat)
      requires Words()
      modifies this`miners
      ensures Words() && View() == Step(old(View()), OpSettle(a))
      ensures amount == if a in old(miners) then Accrued(index, old(miners)[a]).accrued else 0
    {
      var _ := Accrue(a);
      if a !in miners { return 0; }
      var m := miners[a];
      amount := m.accrued;
      if amount > 0 {
        m := m.(accrued := 0, settled := SatAdd(m.settled, amount));
      }
      miners := miners[a := m];
    }

    /** Accrues every miner before storing its new weight, in whatever order the map yields them. */
    method RecomputeAll(weigh: (Addr, Miner) -> nat)
      requires Words()
      modifies this`miners
      ensures Words()
      ensures miners == map a | a in old(miners) :: Recomputed(index, a, old(miners)[a], weigh)
    {
      ghost var start := miners;
      var todo := miners.Keys;
      while todo != {}
        invariant todo <= miners.Keys == start.Keys && Words()
        invariant forall a | a in todo :: miners[a] == start[a]
        invariant forall a | a in start.Keys - todo :: miners[a] == Recomputed(index, a, start[a], weigh)
      {
        var a :| a in todo;
        var _ := Accrue(a);
        var m := miners[a];
        miners := miners[a := m.(effectiveWeight := weigh(a, m))];
        todo := todo - {a};
      }
    }
  }
}
