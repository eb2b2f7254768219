/** Storage placement: planning which miner holds each shard, and reserving the bytes. The active
    miners come as a list in planning order, and the hash that starts each rotation is an input. */
module Allocator {
  import opened Numbers

  datatype Miner = Miner(addr: Addr, capacity: nat, used: nat, reserved: nat)

  datatype Pool = Pool(id: int, first: int, second: int, shardSize: int, hashes: seq<string>)

  datatype Request = Request(dataShards: int, parityShards: int, shardSize: int, segmentSize: int, fileSize: int,
                             segments: seq<seq<string>>, pools: seq<Pool>)

  datatype Assignment = Assignment(segment: int, shard: nat, miner: Addr, hash: string, size: int)

  datatype Error = InvalidPolicy | ShardCountMismatch | InvalidSegmentSize | NoCapacity
  datatype Result<+T> = Ok(value: T) | Err(error: Error)

  /** The miners a plan may use, and the hash of a shard's position. */
  datatype Field = Field(miners: seq<Miner>, hash: (int, int) -> nat)

  predicate DistinctMiners(miners: seq<Miner>) { forall i, j | 0 <= i < j < |miners| :: miners[i].addr != miners[j].addr }

  function Available(m: Miner): nat {
    var used := SatAdd(m.used, m.reserved);
    if used >= m.capacity then 0 else m.capacity - used
  }

  /** Go's conversion of a signed size to uint64. */
  function U64(x: int): nat { if x >= 0 then x else Wrapped(x) }
  function Wrapped(x: int): nat { x % TWO64 }

  /** Bytes a plan takes from one miner. */
  function Load(plan: seq<Assignment>, a: Addr): nat {
    if plan == [] then 0
    else Load(plan[..|plan| - 1], a) + (if plan[|plan| - 1].miner == a then U64(plan[|plan| - 1].size) else 0)
  }

  function Free(plan: seq<Assignment>, m: Miner): int { Available(m) - Load(plan, m.addr) }

  // ---------------------------------------------------------------- the two-pass choice

  /** Position `offset` of the rotation that starts at `start`. */
  function At(start: nat, offset: nat, n: nat): nat
    requires start < n && offset < n
    ensures At(start, offset, n) < n
  {
    if start + offset < n then start + offset else start + offset - n
  }

  lemma AtIsModular(start: nat, offset: nat, n: nat)
    requires start < n && offset < n
    ensures (start + offset) % n == At(start, offset, n)
  {
    var x := start + offset;
    DivisionLaw(x, n);
    QuotientZero(x, n);
    if x / n >= 2 { MulMono(n, 2, x / n); }
  }

  /** Every position is reached once per rotation. */
  lemma RotationCovers(start: nat, n: nat, i: nat) returns (offset: nat)
    requires start < n && i < n
    ensures offset < n && At(start, offset, n) == i
  {
    offset := if i >= start then i - start else i - start + n;
  }

  function Start(hash: nat, n: nat): (s: nat)
    requires n > 0
    ensures s < n
  {
    if n <= 1 then 0 else hash % n
  }

  /** The first offset of the rotation whose position passes, or `n`. */
  function FirstPass(pass: nat -> bool, start: nat, n: nat, offset: nat): (r: nat)
    requires start < n && offset <= n
    ensures offset <= r <= n && (r < n ==> pass(At(start, r, n)))
    ensures forall k | offset <= k < r :: !pass(At(start, k, n))
    decreases n - offset
  {
    if offset == n || pass(At(start, offset, n)) then offset else FirstPass(pass, start, n, offset + 1)
  }

  /** A position passes when its miner is not avoided and has room. */
  function Room(miners: seq<Miner>, plan: seq<Assignment>, avoid: set<Addr>, size: nat): nat -> bool {
    (i: nat) => i < |miners| && miners[i].addr !in avoid && Free(plan, miners[i]) >= size
  }

  /** The miner a shard goes to: the first in rotation with room that is not avoided, else the first with room. */
  function Pick(f: Field, plan: seq<Assignment>, avoid: set<Addr>, start: nat, size: nat): (r: Option<nat>)
    requires start < |f.miners|
    ensures r.Some? ==> r.value < |f.miners|
  {
    var n := |f.miners|;
    var k := FirstPass(Room(f.miners, plan, avoid, size), start, n, 0);
    if k < n then Some(At(start, k, n))
    else
      var j := FirstPass(Room(f.miners, plan, {}, size), start, n, 0);
      if j < n then Some(At(start, j, n)) else None
  }

  lemma NonePass(pass: nat -> bool, start: nat, n: nat)
    requires start < n && FirstPass(pass, start, n, 0) == n
    ensures forall i | 0 <= i < n :: !pass(i)
  {
    forall i | 0 <= i < n ensures !pass(i) {
      var k := RotationCovers(start, n, i);
    }
  }

  /** A miner is avoided unless every other miner lacks space; a choice always has room. */
  lemma PickAvoids(f: Field, plan: seq<Assignment>, avoid: set<Addr>, start: nat, size: nat, i: nat)
    requires start < |f.miners| && Pick(f, plan, avoid, start, size) == Some(i)
    ensures Free(plan, f.miners[i]) >= size
    ensures f.miners[i].addr in avoid
            ==> forall j | 0 <= j < |f.miners| && f.miners[j].addr !in avoid :: Free(plan, f.miners[j]) < size
  {
    var n, room := |f.miners|, Room(f.miners, plan, avoid, size);
    if FirstPass(room, start, n, 0) == n {
      NonePass(room, start, n);
      forall j | 0 <= j < n && f.miners[j].addr !in avoid ensures Free(plan, f.miners[j]) < size {
        assert !room(j);
      }
    }
  }

  /** No choice exactly when no miner at all has room. */
  lemma PickFails(f: Field, plan: seq<Assignment>, avoid: set<Addr>, start: nat, size: nat)
    requires start < |f.miners|
    ensures Pick(f, plan, avoid, start, size) == None <==> forall j | 0 <= j < |f.miners| :: Free(plan, f.miners[j]) < size
  {
    var n, room := |f.miners|, Room(f.miners, plan, {}, size);
    var r := Pick(f, plan, avoid, start, size);
    if r == None {
      NonePass(room, start, n);
      forall j | 0 <= j < n ensures Free(plan, f.miners[j]) < size { assert !room(j); }
    } else {
      PickAvoids(f, plan, avoid, start, size, r.value);
    }
  }

  // ---------------------------------------------------------------- the plan

  /** Which miners a shard should avoid: those of its own segment, or the holders of the same shard
      of the two segments a repair pool pairs. */
  datatype Avoid = SameSegment | Holders(first: int, second: int)

  /** What planning does next: place one shard, or stop with an error. */
  datatype Step = Place(segment: int, shard: nat, size: int, hash: string, avoid: Avoid) | Fail(error: Error)

  /** Position of the first assignment of a shard, or the length. */
  function Lookup(plan: seq<Assignment>, segment: int, shard: nat): (i: nat)
    ensures i <= |plan| && (i < |plan| ==> plan[i].segment == segment && plan[i].shard == shard)
    ensures forall k | 0 <= k < i :: plan[k].segment != segment || plan[k].shard != shard
  {
    if plan == [] || (plan[0].segment == segment && plan[0].shard == shard) then 0 else 1 + Lookup(plan[1..], segment, shard)
  }

  function Holder(plan: seq<Assignment>, segment: int, shard: nat): set<Addr> {
    var i := Lookup(plan, segment, shard);
    if i < |plan| then {plan[i].miner} else {}
  }

  function UsedIn(plan: seq<Assignment>, segment: int): set<Addr> { set a | a in plan && a.segment == segment :: a.miner }

  function Avoided(plan: seq<Assignment>, s: Step): set<Addr>
    requires s.Place?
  {
    match s.avoid
    case SameSegment => UsedIn(plan, s.segment)
    case Holders(x, y) => Holder(plan, x, s.shard) + Holder(plan, y, s.shard)
  }

  /** One step of planning after `plan`. */
  function Put(f: Field, plan: seq<Assignment>, s: Step): Result<Assignment> {
    match s
    case Fail(e) => Err(e)
    case Place(segment, shard, size, hash, _) =>
      if f.miners == [] then Err(NoCapacity)
      else
        match Pick(f, plan, Avoided(plan, s), Start(f.hash(segment, shard), |f.miners|), U64(size))
        case Some(i) => Ok(Assignment(segment, shard, f.miners[i].addr, hash, size))
        case None => Err(NoCapacity)
  }

  type Putter = (seq<Assignment>, Step) -> Result<Assignment>

  function Putting(f: Field): Putter { (plan, s) => Put(f, plan, s) }

  /** `put` is one step of planning over `f`; used only where a step is looked into. */
  ghost predicate Puts(put: Putter, f: Field) {
    forall plan, s {:trigger Put(f, plan, s)} :: put(plan, s) == Put(f, plan, s)
  }

  /** Carries out the first `n` steps one after the other, each knowing the plan before it, up to the first error. */
  function Assign(put: Putter, steps: seq<Step>, n: nat): (r: Result<seq<Assignment>>)
    requires n <= |steps|
  {
    if n == 0 then Ok([])
    else
      match Assign(put, steps, n - 1)
      case Err(e) => Err(e)
      case Ok(plan) =>
        match put(plan, steps[n - 1])
        case Ok(a) => Ok(plan + [a])
        case Err(e) => Err(e)
  }

  function AssignAll(put: Putter, steps: seq<Step>): Result<seq<Assignment>> { Assign(put, steps, |steps|) }

  function TotalShards(req: Request): int { req.dataShards + req.parityShards }

  /** Size of one shard: fixed, or the segment's bytes split over the data shards, rounded up. */
  function PlannedSize(req: Request, segment: int): (r: Result<int>)
    ensures r.Ok? ==> r.value > 0
  {
    if req.shardSize > 0 then Ok(req.shardSize)
    else if req.dataShards <= 0 then Err(InvalidPolicy)
    else
      var remaining := req.fileSize - segment * req.segmentSize;
      var bytes := if 0 < remaining < req.segmentSize then remaining else req.segmentSize;
      if bytes <= 0 then Err(InvalidSegmentSize)
      else
        RoundsUp(bytes, req.dataShards);
        Ok((bytes + req.dataShards - 1) / req.dataShards)
  }

  lemma RoundsUp(x: nat, d: nat)
    requires 0 < d && 0 < x
    ensures var q := (x + d - 1) / d; 0 < q && q * d >= x > (q - 1) * d
  {
    DivisionLaw(x + d - 1, d);
    FloorAbove(x + d - 1, d, 1);
  }

  /** The bytes of a segment of the file: what is left there if that is positive and less than a whole segment. */
  ghost predicate SegmentHolds(req: Request, segment: int, bytes: int) {
    var left := req.fileSize - segment * req.segmentSize;
    bytes == if 0 < left && left < req.segmentSize then left else req.segmentSize
  }

  /** A fixed size is taken as it is. Otherwise the planned size is the fewest bytes with which the data
      shards hold the segment, and there is none exactly when there are no data shards or no bytes. */
  lemma PlannedSizeIs(req: Request, segment: int, bytes: int)
    requires SegmentHolds(req, segment, bytes)
    ensures var r := PlannedSize(req, segment);
            && (req.shardSize > 0 ==> r == Ok(req.shardSize))
            && (req.shardSize <= 0 && req.dataShards <= 0 ==> r == Err(InvalidPolicy))
            && (req.shardSize <= 0 && req.dataShards > 0 && bytes <= 0 ==> r == Err(InvalidSegmentSize))
            && (req.shardSize <= 0 && req.dataShards > 0 && bytes > 0 ==>
                  r.Ok? && r.value * req.dataShards >= bytes > (r.value - 1) * req.dataShards)
  {
    if req.shardSize <= 0 && req.dataShards > 0 && bytes > 0 { RoundsUp(bytes, req.dataShards); }
  }

  function SegmentSteps(req: Request, i: nat): seq<Step>
    requires i < |req.segments|
  {
    if |req.segments[i]| != TotalShards(req) then [Fail(ShardCountMismatch)]
    else
      match PlannedSize(req, i)
      case Err(e) => [Fail(e)]
      case Ok(size) => seq(|req.segments[i]|, j requires 0 <= j < |req.segments[i]| => Place(i, j, size, req.segments[i][j], SameSegment))
  }

  function ShardCount(req: Request): nat { if TotalShards(req) > 0 then TotalShards(req) else 0 }

  function PoolSize(req: Request, p: Pool): int {
    if p.shardSize <= 0 && |req.segments| > p.first then
      match PlannedSize(req, p.first)
      case Ok(size) => size
      case Err(_) => 0
    else p.shardSize
  }

  function HashAt(hashes: seq<string>, j: nat): string { if j < |hashes| then hashes[j] else "" }

  function PoolSteps(req: Request, p: Pool): seq<Step> {
    seq(ShardCount(req), j requires 0 <= j => Place(-(p.id + 1), j, PoolSize(req, p), HashAt(p.hashes, j), Holders(p.first, p.second)))
  }

  function SegmentsUpTo(req: Request, n: nat): seq<Step>
    requires n <= |req.segments|
  {
    if n == 0 then [] else SegmentsUpTo(req, n - 1) + SegmentSteps(req, n - 1)
  }

  function PoolBlock(req: Request): Pool -> seq<Step> { p => PoolSteps(req, p) }

  function PoolsUpTo(pools: seq<Pool>, block: Pool -> seq<Step>, n: nat): seq<Step>
    requires n <= |pools|
  {
    if n == 0 then [] else PoolsUpTo(pools, block, n - 1) + block(pools[n - 1])
  }

  function Steps(req: Request): seq<Step> {
    SegmentsUpTo(req, |req.segments|) + PoolsUpTo(req.pools, PoolBlock(req), |req.pools|)
  }

  function Plan(f: Field, req: Request): Result<seq<Assignment>> {
    if f.miners == [] then Ok([])
    else if TotalShards(req) <= 0 then Err(InvalidPolicy)
    else AssignAll(Putting(f), Steps(req))
  }

  // ---------------------------------------------------------------- what a plan guarantees

  lemma AssignLast(put: Putter, steps: seq<Step>, n: nat, plan: seq<Assignment>)
    requires 0 < n <= |steps| && Assign(put, steps, n) == Ok(plan)
    ensures plan != [] && Assign(put, steps, n - 1) == Ok(plan[..|plan| - 1])
    ensures put(plan[..|plan| - 1], steps[n - 1]) == Ok(plan[|plan| - 1])
  {
    var before := Assign(put, steps, n - 1).value;
    assert plan[..|plan| - 1] == before;
  }

  /** A step was carried out by an assignment: same shard, and the choice made with what was planned before. */
  ghost predicate Carried(f: Field, plan: seq<Assignment>, s: Step, a: Assignment) {
    && s.Place? && a.segment == s.segment && a.shard == s.shard && a.size == s.size && a.hash == s.hash
    && (exists i :: 0 <= i < |f.miners| && f.miners[i].addr == a.miner && Free(plan, f.miners[i]) >= U64(s.size))
    && (a.miner in Avoided(plan, s)
        ==> forall j | 0 <= j < |f.miners| && f.miners[j].addr !in Avoided(plan, s) :: Free(plan, f.miners[j]) < U64(s.size))
  }

  lemma PutCarries(put: Putter, f: Field, plan: seq<Assignment>, s: Step, a: Assignment)
    requires f.miners != [] && Puts(put, f) && put(plan, s) == Ok(a)
    ensures Carried(f, plan, s, a)
  {
    assert Put(f, plan, s) == Ok(a);
    var start := Start(f.hash(s.segment, s.shard), |f.miners|);
    var i := Pick(f, plan, Avoided(plan, s), start, U64(s.size)).value;
    PickAvoids(f, plan, Avoided(plan, s), start, U64(s.size), i);
  }

  lemma {:induction false} AssignLength(put: Putter, steps: seq<Step>, n: nat)
    requires n <= |steps| && Assign(put, steps, n).Ok?
    ensures |Assign(put, steps, n).value| == n
  {
    if n > 0 { AssignLength(put, steps, n - 1); }
  }

  lemma {:induction false} StepCarried(put: Putter, f: Field, steps: seq<Step>, n: nat, plan: seq<Assignment>, k: nat)
    requires k < n <= |steps| && |plan| == n && f.miners != [] && Puts(put, f) && Assign(put, steps, n) == Ok(plan)
    ensures Carried(f, plan[..k], steps[k], plan[k])
  {
    AssignLast(put, steps, n, plan);
    if k == n - 1 {
      PutCarries(put, f, plan[..k], steps[k], plan[k]);
    } else {
      StepCarried(put, f, steps, n - 1, plan[..n - 1], k);
      assert plan[..n - 1][..k] == plan[..k];
    }
  }

  /** Every step of a successful plan is carried out once, in order: each shard on a miner with room
      for it, and on a miner to avoid only when every other one lacked space at that point. */
  lemma PlanCarriesEveryStep(f: Field, req: Request, plan: seq<Assignment>)
    requires f.miners != [] && Plan(f, req) == Ok(plan)
    ensures |plan| == |Steps(req)|
    ensures forall k | 0 <= k < |plan| :: Carried(f, plan[..k], Steps(req)[k], plan[k])
  {
    AssignLength(Putting(f), Steps(req), |Steps(req)|);
    forall k | 0 <= k < |plan| ensures Carried(f, plan[..k], Steps(req)[k], plan[k]) {
      StepCarried(Putting(f), f, Steps(req), |plan|, plan, k);
    }
  }

  ghost predicate Fits(miners: seq<Miner>, plan: seq<Assignment>) {
    forall i | 0 <= i < |miners| :: Load(plan, miners[i].addr) <= Available(miners[i])
  }

  /** No plan takes more than a miner's free bytes. */
  lemma {:induction false} PlanFits(put: Putter, f: Field, steps: seq<Step>, n: nat, plan: seq<Assignment>)
    requires n <= |steps| && f.miners != [] && Puts(put, f) && DistinctMiners(f.miners) && Assign(put, steps, n) == Ok(plan)
    ensures Fits(f.miners, plan)
  {
    if n > 0 {
      AssignLast(put, steps, n, plan);
      PlanFits(put, f, steps, n - 1, plan[..|plan| - 1]);
      PutCarries(put, f, plan[..|plan| - 1], steps[n - 1], plan[|plan| - 1]);
      OneMoreFits(f, plan, steps[n - 1]);
    }
  }

  lemma OneMoreFits(f: Field, plan: seq<Assignment>, s: Step)
    requires DistinctMiners(f.miners) && plan != [] && Fits(f.miners, plan[..|plan| - 1])
    requires Carried(f, plan[..|plan| - 1], s, plan[|plan| - 1])
    ensures Fits(f.miners, plan)
  {
    var before, a := plan[..|plan| - 1], plan[|plan| - 1];
    var i :| 0 <= i < |f.miners| && f.miners[i].addr == a.miner && Free(before, f.miners[i]) >= U64(s.size);
    forall k | 0 <= k < |f.miners| ensures Load(plan, f.miners[k].addr) <= Available(f.miners[k]) {
      assert k != i ==> f.miners[k].addr != a.miner;
    }
  }

  lemma {:induction false} ErrorStays(put: Putter, steps: seq<Step>, n: nat, m: nat)
    requires n <= m <= |steps| && Assign(put, steps, n).Err?
    ensures Assign(put, steps, m) == Assign(put, steps, n)
  {
    if n < m { ErrorStays(put, steps, n, m - 1); }
  }

  /** Planning fails only at a step that carries an error, or that no miner has room for. */
  lemma {:induction false} FailsOnlyWhenStuck(put: Putter, f: Field, steps: seq<Step>, n: nat) returns (k: nat, before: seq<Assignment>)
    requires n <= |steps| && f.miners != [] && Puts(put, f) && Assign(put, steps, n).Err?
    ensures k < n && Assign(put, steps, k) == Ok(before)
    ensures steps[k] == Fail(Assign(put, steps, n).error)
            || (steps[k].Place? && Assign(put, steps, n).error == NoCapacity
                && forall j | 0 <= j < |f.miners| :: Free(before, f.miners[j]) < U64(steps[k].size))
  {
    if Assign(put, steps, n - 1).Err? {
      k, before := FailsOnlyWhenStuck(put, f, steps, n - 1);
    } else {
      k, before := n - 1, Assign(put, steps, n - 1).value;
      StuckWhenRefused(put, f, before, steps[k]);
    }
  }

  lemma StuckWhenRefused(put: Putter, f: Field, before: seq<Assignment>, s: Step)
    requires f.miners != [] && Puts(put, f) && put(before, s).Err?
    ensures s == Fail(put(before, s).error)
            || (s.Place? && put(before, s).error == NoCapacity
                && forall j | 0 <= j < |f.miners| :: Free(before, f.miners[j]) < U64(s.size))
  {
    assert put(before, s) == Put(f, before, s);
    if s.Place? { PickFails(f, before, Avoided(before, s), Start(f.hash(s.segment, s.shard), |f.miners|), U64(s.size)); }
  }

  // ---------------------------------------------------------------- every shard exactly once

  type Key = (int, nat)

  function Keys(plan: seq<Assignment>): seq<Key> { seq(|plan|, i requires 0 <= i < |plan| => (plan[i].segment, plan[i].shard)) }
  function StepKeys(s: seq<Step>): seq<Key> {
    seq(|s|, i requires 0 <= i < |s| => if s[i].Place? then (s[i].segment, s[i].shard) else (0, 0))
  }

  predicate Distinct<T(==)>(s: seq<T>) { forall i, j | 0 <= i < j < |s| :: s[i] != s[j] }

  function Block(g: int, n: nat): seq<Key> { seq(n, j requires 0 <= j => (g, j)) }

  /** The keys of one whole group of `n` shards, as a function of the group. */
  function Blocks(n: nat): int -> seq<Key> { g => Block(g, n) }

  /** The keys of whole groups. */
  function Flat(groups: seq<int>, block: int -> seq<Key>): seq<Key> {
    if groups == [] then [] else Flat(groups[..|groups| - 1], block) + block(groups[|groups| - 1])
  }

  lemma {:induction false} FlatHolds(groups: seq<int>, n: nat, key: Key)
    ensures key in Flat(groups, Blocks(n)) <==> key.0 in groups && key.1 < n
  {
    if groups != [] {
      var rest, g := groups[..|groups| - 1], groups[|groups| - 1];
      FlatHolds(rest, n, key);
      assert groups == rest + [g];
      if key.0 == g && key.1 < n { assert Block(g, n)[key.1] == key; }
    }
  }

  lemma DistinctJoin<T>(s: seq<T>, t: seq<T>)
    ensures Distinct(s + t) <==> Distinct(s) && Distinct(t) && forall x | x in s :: x !in t
  {
    var u := s + t;
    if Distinct(u) {
      forall i, j | 0 <= i < j < |s| ensures s[i] != s[j] { assert u[i] == s[i] && u[j] == s[j]; }
      forall i, j | 0 <= i < j < |t| ensures t[i] != t[j] { assert u[|s| + i] == t[i] && u[|s| + j] == t[j]; }
      forall x | x in s ensures x !in t {
        var i :| 0 <= i < |s| && s[i] == x;
        forall j | 0 <= j < |t| ensures t[j] != x { assert u[i] == x && u[|s| + j] == t[j]; }
      }
    }
    if Distinct(s) && Distinct(t) && forall x | x in s :: x !in t {
      forall i, j | 0 <= i < j < |u| ensures u[i] != u[j] {
        if i < |s| <= j { assert u[i] in s && u[j] in t; }
      }
    }
  }

  /** Whole groups repeat no key exactly when no group is repeated. */
  lemma {:induction false} FlatDistinct(groups: seq<int>, n: nat)
    requires n > 0
    ensures Distinct(Flat(groups, Blocks(n))) <==> Distinct(groups)
  {
    if groups != [] {
      var rest, g := groups[..|groups| - 1], groups[|groups| - 1];
      FlatDistinct(rest, n);
      assert groups == rest + [g];
      DistinctJoin(rest, [g]);
      DistinctJoin(Flat(rest, Blocks(n)), Block(g, n));
      FlatHolds(rest, n, (g, 0));
      assert Block(g, n)[0] == (g, 0);
      forall key | key in Flat(rest, Blocks(n)) ensures key in Block(g, n) ==> g in rest { FlatHolds(rest, n, key); }
    }
  }

  function SegmentGroups(n: nat): seq<int> { seq(n, i => i) }
  function PoolGroups(pools: seq<Pool>): seq<int> { seq(|pools|, i requires 0 <= i < |pools| => -(pools[i].id + 1)) }

  /** Pool ids differ, and none of them maps onto a segment's own number. */
  predicate PoolsApart(req: Request) {
    && (forall i, j | 0 <= i < j < |req.pools| :: req.pools[i].id != req.pools[j].id)
    && (forall i | 0 <= i < |req.pools| :: req.pools[i].id >= 0 || -(req.pools[i].id + 1) >= |req.segments|)
  }

  lemma GroupsApart(req: Request)
    ensures Distinct(SegmentGroups(|req.segments|) + PoolGroups(req.pools)) <==> PoolsApart(req)
  {
    var s, p := SegmentGroups(|req.segments|), PoolGroups(req.pools);
    DistinctJoin(s, p);
    assert Distinct(p) <==> forall i, j | 0 <= i < j < |req.pools| :: req.pools[i].id != req.pools[j].id by {
      assert forall i | 0 <= i < |req.pools| :: p[i] == -(req.pools[i].id + 1);
    }
    forall x: int ensures x in s <==> 0 <= x < |req.segments| {
      if 0 <= x < |req.segments| { assert s[x] == x; }
    }
    if PoolsApart(req) {
      forall x | x in s ensures x !in p { assert forall i | 0 <= i < |p| :: p[i] == -(req.pools[i].id + 1); }
    } else if forall x | x in s :: x !in p {
      forall i | 0 <= i < |req.pools| ensures req.pools[i].id >= 0 || -(req.pools[i].id + 1) >= |req.segments| {
        assert p[i] in p;
      }
    }
  }

  predicate AllPlace(s: seq<Step>) { forall i | 0 <= i < |s| :: s[i].Place? }

  lemma KeysJoin(s: seq<Step>, t: seq<Step>)
    ensures StepKeys(s + t) == StepKeys(s) + StepKeys(t)
  {
  }

  lemma OneSegmentKeys(req: Request, i: nat, total: nat)
    requires i < |req.segments| && total == TotalShards(req) > 0 && AllPlace(SegmentSteps(req, i))
    ensures StepKeys(SegmentSteps(req, i)) == Block(i, total)
  {
    assert SegmentSteps(req, i)[0].Place?;
  }

  lemma PlaceSplits(s: seq<Step>, t: seq<Step>)
    requires AllPlace(s + t)
    ensures AllPlace(s) && AllPlace(t)
  {
    assert forall i | 0 <= i < |s| :: s[i] == (s + t)[i];
    assert forall i | 0 <= i < |t| :: t[i] == (s + t)[|s| + i];
  }

  lemma {:induction false} SegmentKeys(req: Request, n: nat, total: nat)
    requires n <= |req.segments| && total == TotalShards(req) > 0 && AllPlace(SegmentsUpTo(req, n))
    ensures StepKeys(SegmentsUpTo(req, n)) == Flat(SegmentGroups(n), Blocks(total))
  {
    if n > 0 {
      PlaceSplits(SegmentsUpTo(req, n - 1), SegmentSteps(req, n - 1));
      SegmentKeys(req, n - 1, total);
      OneSegmentKeys(req, n - 1, total);
      KeysJoin(SegmentsUpTo(req, n - 1), SegmentSteps(req, n - 1));
      assert SegmentGroups(n)[..n - 1] == SegmentGroups(n - 1);
    }
  }

  lemma {:induction false} PoolKeys(req: Request, n: nat, total: nat)
    requires n <= |req.pools| && total == TotalShards(req) > 0
    ensures StepKeys(PoolsUpTo(req.pools, PoolBlock(req), n)) == Flat(PoolGroups(req.pools[..n]), Blocks(total))
  {
    if n > 0 {
      var s, t := PoolsUpTo(req.pools, PoolBlock(req), n - 1), PoolSteps(req, req.pools[n - 1]);
      PoolKeys(req, n - 1, total);
      KeysJoin(s, t);
      assert StepKeys(t) == Block(-(req.pools[n - 1].id + 1), total);
      assert PoolGroups(req.pools[..n])[..n - 1] == PoolGroups(req.pools[..n - 1]);
    }
  }

  lemma {:induction false} FlatJoin(g: seq<int>, h: seq<int>, block: int -> seq<Key>)
    ensures Flat(g + h, block) == Flat(g, block) + Flat(h, block)
  {
    if h == [] {
      assert g + h == g;
    } else {
      var rest, last := h[..|h| - 1], h[|h| - 1];
      FlatJoin(g, rest, block);
      FlatLast(g, rest, last, block);
      assert rest + [last] == h;
    }
  }

  lemma FlatLast(g: seq<int>, h: seq<int>, x: int, block: int -> seq<Key>)
    requires Flat(g + h, block) == Flat(g, block) + Flat(h, block)
    ensures Flat(g + (h + [x]), block) == Flat(g, block) + Flat(h + [x], block)
  {
    FlatSnoc(g + h, x, block);
    FlatSnoc(h, x, block);
    JoinAssociates(g, h, [x]);
    JoinAssociates(Flat(g, block), Flat(h, block), block(x));
  }

  lemma JoinAssociates<T>(a: seq<T>, b: seq<T>, c: seq<T>)
    ensures (a + b) + c == a + (b + c)
  {
  }

  lemma FlatSnoc(g: seq<int>, x: int, block: int -> seq<Key>)
    ensures Flat(g + [x], block) == Flat(g, block) + block(x)
  {
    assert (g + [x])[..|g|] == g;
  }

  /** A successful plan has the keys of its steps, and none of them failed. */
  lemma PlanKeys(put: Putter, f: Field, steps: seq<Step>, plan: seq<Assignment>)
    requires f.miners != [] && Puts(put, f) && AssignAll(put, steps) == Ok(plan)
    ensures Keys(plan) == StepKeys(steps) && AllPlace(steps)
  {
    AssignLength(put, steps, |steps|);
    forall k | 0 <= k < |steps| ensures steps[k].Place? && Keys(plan)[k] == StepKeys(steps)[k] {
      StepCarried(put, f, steps, |steps|, plan, k);
    }
  }

  lemma StepsAreGroups(req: Request, total: nat)
    requires total == TotalShards(req) > 0 && AllPlace(Steps(req))
    ensures StepKeys(Steps(req)) == Flat(SegmentGroups(|req.segments|) + PoolGroups(req.pools), Blocks(total))
  {
    var s, t := SegmentsUpTo(req, |req.segments|), PoolsUpTo(req.pools, PoolBlock(req), |req.pools|);
    PlaceSplits(s, t);
    SegmentKeys(req, |req.segments|, total);
    PoolKeys(req, |req.pools|, total);
    assert req.pools[..|req.pools|] == req.pools;
    KeysJoin(s, t);
    FlatJoin(SegmentGroups(|req.segments|), PoolGroups(req.pools), Blocks(total));
  }

  /** A successful plan places exactly the shards of every segment and every pool. */
  lemma PlanCovers(f: Field, req: Request, plan: seq<Assignment>, key: Key)
    requires f.miners != [] && Plan(f, req) == Ok(plan)
    ensures key in Keys(plan)
            <==> key.1 < TotalShards(req) && (0 <= key.0 < |req.segments| || key.0 in PoolGroups(req.pools))
  {
    var total: nat := TotalShards(req);
    PlanKeys(Putting(f), f, Steps(req), plan);
    StepsAreGroups(req, total);
    var s := SegmentGroups(|req.segments|);
    FlatHolds(s + PoolGroups(req.pools), total, key);
    if 0 <= key.0 < |req.segments| { assert s[key.0] == key.0; }
  }

  /** It places each of them once exactly when the pool ids keep apart. */
  lemma PlacedOnce(f: Field, req: Request, plan: seq<Assignment>)
    requires f.miners != [] && Plan(f, req) == Ok(plan)
    ensures Distinct(Keys(plan)) <==> PoolsApart(req)
  {
    var total: nat := TotalShards(req);
    PlanKeys(Putting(f), f, Steps(req), plan);
    StepsAreGroups(req, total);
    FlatDistinct(SegmentGroups(|req.segments|) + PoolGroups(req.pools), total);
    GroupsApart(req);
  }

  // ---------------------------------------------------------------- what each entry of a plan is

  /** There are miners, and planning gives `plan`. */
  ghost function Succeeds(f: Field, req: Request): seq<Assignment> -> bool {
    plan => f.miners != [] && Plan(f, req) == Ok(plan)
  }

  /** Where the entries of each segment and of each repair pool begin, and the step behind an entry. */
  ghost function RowOf(req: Request): nat -> nat { (i: nat) => if i <= |req.segments| then |SegmentsUpTo(req, i)| else 0 }
  ghost function PoolRowOf(req: Request): nat -> nat { (i: nat) => if i <= |req.pools| then PoolStart(req, i) else 0 }
  ghost function StepOf(req: Request): nat -> Step { (k: nat) => if k < |Steps(req)| then Steps(req)[k] else Fail(NoCapacity) }

  lemma SuccessPlaces(f: Field, req: Request, plan: seq<Assignment>)
    requires Succeeds(f, req)(plan)
    ensures f.miners != [] && |plan| == |Steps(req)| && AllPlace(Steps(req)) && TotalShards(req) > 0
  {
    PlanKeys(Putting(f), f, Steps(req), plan);
    PlanCarriesEveryStep(f, req, plan);
  }

  /** An entry carries its step. */
  lemma EntryIs(f: Field, req: Request, plan: seq<Assignment>, k: nat)
    requires Succeeds(f, req)(plan) && k < |plan|
    ensures f.miners != [] && StepOf(req)(k).Place?
    ensures var a, s := plan[k], StepOf(req)(k); a.segment == s.segment && a.shard == s.shard && a.size == s.size && a.hash == s.hash
  {
    PlanCarriesEveryStep(f, req, plan);
    assert Carried(f, plan[..k], Steps(req)[k], plan[k]);
  }

  lemma {:induction false} StepPut(put: Putter, steps: seq<Step>, n: nat, plan: seq<Assignment>, k: nat)
    requires k < n <= |steps| && |plan| == n && Assign(put, steps, n) == Ok(plan)
    ensures put(plan[..k], steps[k]) == Ok(plan[k])
  {
    AssignLast(put, steps, n, plan);
    if k < n - 1 {
      StepPut(put, steps, n - 1, plan[..n - 1], k);
      assert plan[..n - 1][..k] == plan[..k];
    }
  }

  lemma {:induction false} SegmentOffset(req: Request, n: nat, total: nat)
    requires n <= |req.segments| && total == TotalShards(req) > 0 && AllPlace(SegmentsUpTo(req, n))
    ensures |SegmentsUpTo(req, n)| == n * total
  {
    if n > 0 {
      PlaceSplits(SegmentsUpTo(req, n - 1), SegmentSteps(req, n - 1));
      SegmentOffset(req, n - 1, total);
      OneSegmentKeys(req, n - 1, total);
      assert |SegmentSteps(req, n - 1)| == |StepKeys(SegmentSteps(req, n - 1))| == total;
      assert n * total == (n - 1) * total + total;
    }
  }

  lemma {:induction false} PoolOffset(req: Request, n: nat, total: nat)
    requires n <= |req.pools| && total == TotalShards(req) > 0
    ensures |PoolsUpTo(req.pools, PoolBlock(req), n)| == n * total
  {
    if n > 0 {
      PoolOffset(req, n - 1, total);
      assert |PoolSteps(req, req.pools[n - 1])| == total;
      assert n * total == (n - 1) * total + total;
    }
  }

  /** The entries of a successful plan come in rows of one shard each: first the segments, then the pools. */
  lemma RowsAreEven(f: Field, req: Request, plan: seq<Assignment>, total: nat, i: nat)
    requires Succeeds(f, req)(plan) && total == req.dataShards + req.parityShards
    ensures i <= |req.segments| ==> RowOf(req)(i) == i * total
    ensures i <= |req.pools| ==> PoolRowOf(req)(i) == (|req.segments| + i) * total
    ensures i == |req.pools| ==> |plan| == (|req.segments| + i) * total
  {
    SuccessPlaces(f, req, plan);
    PlaceSplits(SegmentsUpTo(req, |req.segments|), PoolsUpTo(req.pools, PoolBlock(req), |req.pools|));
    if i <= |req.segments| { SegmentOffsetOf(req, i, total); }
    if i <= |req.pools| {
      SegmentOffset(req, |req.segments|, total);
      PoolOffset(req, i, total);
      AddRows(total, |req.segments|, i);
    }
  }

  lemma SegmentOffsetOf(req: Request, i: nat, total: nat)
    requires i <= |req.segments| && total == TotalShards(req) > 0 && AllPlace(SegmentsUpTo(req, |req.segments|))
    ensures |SegmentsUpTo(req, i)| == i * total
  {
    SegmentPrefix(req, i, |req.segments|);
    PrefixPlaces(SegmentsUpTo(req, |req.segments|), SegmentsUpTo(req, i));
    SegmentOffset(req, i, total);
  }

  lemma AddRows(total: nat, m: nat, n: nat)
    ensures (m + n) * total == m * total + n * total
  {
  }

  lemma PrefixPlaces(s: seq<Step>, prefix: seq<Step>)
    requires prefix <= s && AllPlace(s)
    ensures AllPlace(prefix)
  {
  }

  lemma SegmentPlaces(req: Request, i: nat, total: nat)
    requires i < |req.segments| && AllPlace(Steps(req)) && 0 < total == TotalShards(req)
    ensures |req.segments[i]| == total == |SegmentSteps(req, i)| && PlannedSize(req, i).Ok?
  {
    var s := SegmentsUpTo(req, |req.segments|);
    PlaceSplits(s, PoolsUpTo(req.pools, PoolBlock(req), |req.pools|));
    SegmentPrefix(req, i + 1, |req.segments|);
    PrefixPlaces(s, SegmentsUpTo(req, i + 1));
    PlaceSplits(SegmentsUpTo(req, i), SegmentSteps(req, i));
    OneSegmentPlaces(req, i, total);
  }

  lemma OneSegmentPlaces(req: Request, i: nat, total: nat)
    requires i < |req.segments| && AllPlace(SegmentSteps(req, i)) && 0 < total == TotalShards(req)
    ensures |req.segments[i]| == total == |SegmentSteps(req, i)| && PlannedSize(req, i).Ok?
  {
    assert SegmentSteps(req, i)[0].Place?;
  }

  lemma ListedStep(steps: seq<Step>, n: nat, more: seq<Step>, j: nat)
    requires Listed(steps, n, more) && j < |more|
    ensures n + |more| <= |steps| && steps[n + j] == more[j]
  {
  }

  lemma SegmentSpot(req: Request, i: nat, j: nat, total: nat)
    requires i < |req.segments| && j < total == TotalShards(req) && AllPlace(Steps(req))
    ensures var n := |SegmentsUpTo(req, i)|;
            && n + total <= |Steps(req)| && n + total <= |SegmentsUpTo(req, |req.segments|)|
            && |req.segments[i]| == total && PlannedSize(req, i).Ok?
            && Steps(req)[n + j] == Place(i, j, PlannedSize(req, i).value, req.segments[i][j], SameSegment)
  {
    SegmentPlaces(req, i, total);
    SegmentListed(req, i);
    SegmentPrefix(req, i + 1, |req.segments|);
    ListedStep(Steps(req), |SegmentsUpTo(req, i)|, SegmentSteps(req, i), j);
  }

  /** The step of shard `j` of segment `i`. */
  lemma SegmentStep(f: Field, req: Request, plan: seq<Assignment>, i: nat, j: nat, total: nat)
    requires Succeeds(f, req)(plan) && i < |req.segments| && j < total == TotalShards(req)
    ensures RowOf(req)(i) + total <= |plan| && |req.segments[i]| == total && PlannedSize(req, i).Ok?
    ensures RowOf(req)(i) + total <= PoolRowOf(req)(0)
    ensures StepOf(req)(RowOf(req)(i) + j) == Place(i, j, PlannedSize(req, i).value, req.segments[i][j], SameSegment)
  {
    SuccessPlaces(f, req, plan);
    SegmentSpot(req, i, j, total);
  }

  /** Entry `j` of segment `i` is that shard with its own hash and the segment's planned size. */
  lemma SegmentEntry(f: Field, req: Request, plan: seq<Assignment>, i: nat, j: nat, total: nat)
    requires Succeeds(f, req)(plan) && i < |req.segments| && j < total == req.dataShards + req.parityShards
    ensures RowOf(req)(i) + total <= |plan| && |req.segments[i]| == total
    ensures var a := plan[RowOf(req)(i) + j];
            a.segment == i && a.shard == j && a.hash == req.segments[i][j] && PlannedSize(req, i) == Ok(a.size)
  {
    SegmentStep(f, req, plan, i, j, total);
    EntryIs(f, req, plan, RowOf(req)(i) + j);
  }

  /** The shards of a segment in order, all of one size. */
  ghost predicate IsRow(row: seq<Assignment>, i: nat, size: int) {
    forall j | 0 <= j < |row| :: row[j].segment == i && row[j].shard == j && row[j].size == size
  }

  /** All entries of segment `i`. */
  lemma SegmentRow(f: Field, req: Request, plan: seq<Assignment>, i: nat, total: nat) returns (row: seq<Assignment>)
    requires Succeeds(f, req)(plan) && i < |req.segments| && 0 < total == TotalShards(req)
    ensures RowOf(req)(i) + total <= |plan| && PlannedSize(req, i).Ok?
    ensures row == plan[RowOf(req)(i)..RowOf(req)(i) + total] && IsRow(row, i, PlannedSize(req, i).value)
  {
    SegmentEntry(f, req, plan, i, 0, total);
    var base := RowOf(req)(i);
    row := plan[base..base + total];
    forall j | 0 <= j < total ensures row[j].segment == i && row[j].shard == j && row[j].size == PlannedSize(req, i).value {
      SegmentEntry(f, req, plan, i, j, total);
    }
  }

  /** Bytes a stretch of a plan stores. */
  function Stored(plan: seq<Assignment>): int { if plan == [] then 0 else Stored(plan[..|plan| - 1]) + plan[|plan| - 1].size }

  lemma {:induction false} StoredEvenly(plan: seq<Assignment>, size: int)
    requires forall a | a in plan :: a.size == size
    ensures Stored(plan) == |plan| * size
  {
    if plan != [] {
      StoredEvenly(plan[..|plan| - 1], size);
      assert |plan| * size == (|plan| - 1) * size + size;
    }
  }

  /** The data shards of each segment together hold its bytes, exactly when no data shard is left out by
      a negative parity count, which new deals may not have, or the shards that are placed are enough
      all the same. */
  lemma DataShardsHold(f: Field, req: Request, plan: seq<Assignment>, i: nat, total: nat, bytes: int, size: int)
    returns (part: seq<Assignment>)
    requires Succeeds(f, req)(plan) && req.shardSize <= 0
    requires i < |req.segments| && 0 < total == req.dataShards + req.parityShards
    requires SegmentHolds(req, i, bytes) && size * req.dataShards >= bytes > (size - 1) * req.dataShards
    ensures 0 < req.dataShards && RowOf(req)(i) + total <= |plan|
    ensures part == plan[RowOf(req)(i)..RowOf(req)(i) + Min(req.dataShards, total)] && IsRow(part, i, size)
    ensures Stored(part) >= bytes <==> req.parityShards >= 0 || total * size >= bytes
  {
    var row := SegmentRow(f, req, plan, i, total);
    SizeIs(req, i, bytes, size);
    part := row[..Min(req.dataShards, total)];
    PartOfRow(row, i, size, Min(req.dataShards, total));
    EnoughShards(req.dataShards, total, req.parityShards, size, bytes);
  }

  /** With a fixed size they store that size each, so they hold the bytes exactly when it was chosen large enough. */
  lemma FixedShardsStore(f: Field, req: Request, plan: seq<Assignment>, i: nat, total: nat) returns (part: seq<Assignment>)
    requires Succeeds(f, req)(plan) && req.shardSize > 0 && req.dataShards >= 0
    requires i < |req.segments| && 0 < total == req.dataShards + req.parityShards
    ensures RowOf(req)(i) + total <= |plan|
    ensures part == plan[RowOf(req)(i)..RowOf(req)(i) + Min(req.dataShards, total)] && IsRow(part, i, req.shardSize)
    ensures Stored(part) == Min(req.dataShards, total) * req.shardSize
  {
    var row := SegmentRow(f, req, plan, i, total);
    part := row[..Min(req.dataShards, total)];
    PartOfRow(row, i, req.shardSize, Min(req.dataShards, total));
  }

  lemma PartOfRow(row: seq<Assignment>, i: nat, size: int, n: nat)
    requires n <= |row| && IsRow(row, i, size)
    ensures IsRow(row[..n], i, size) && Stored(row[..n]) == n * size
  {
    StoredEvenly(row[..n], size);
  }

  lemma SizeIs(req: Request, i: nat, bytes: int, size: int)
    requires req.shardSize <= 0 && PlannedSize(req, i).Ok?
    requires SegmentHolds(req, i, bytes) && size * req.dataShards >= bytes > (size - 1) * req.dataShards
    ensures 0 < req.dataShards && PlannedSize(req, i) == Ok(size)
  {
    PlannedSizeIs(req, i, bytes);
    OneCeiling(PlannedSize(req, i).value, size, req.dataShards, bytes);
  }

  lemma EnoughShards(data: nat, total: nat, parity: int, size: int, bytes: int)
    requires total == data + parity && size * data >= bytes
    ensures Min(data, total) * size >= bytes <==> parity >= 0 || total * size >= bytes
  {
    assert data * size == size * data;
  }

  lemma OneCeiling(p: int, q: int, d: nat, x: int)
    requires p * d >= x > (p - 1) * d && q * d >= x > (q - 1) * d
    ensures p == q
  {
    if p < q { MulMono(d, p, q - 1); }
    if q < p { MulMono(d, q, p - 1); }
  }

  lemma PoolSpot(req: Request, i: nat, j: nat, total: nat)
    requires i < |req.pools| && j < total == TotalShards(req)
    ensures var n, p := PoolStart(req, i), req.pools[i];
            && n + j < |Steps(req)|
            && Steps(req)[n + j] == Place(-(p.id + 1), j, PoolSize(req, p), HashAt(p.hashes, j), Holders(p.first, p.second))
  {
    PoolListed(req, i);
    ListedStep(Steps(req), PoolStart(req, i), PoolSteps(req, req.pools[i]), j);
  }

  /** The step of shard `j` of pool `i`. */
  lemma PoolStep(f: Field, req: Request, plan: seq<Assignment>, i: nat, j: nat, total: nat)
    requires Succeeds(f, req)(plan) && i < |req.pools| && j < total == TotalShards(req)
    ensures PoolRowOf(req)(0) <= PoolRowOf(req)(i) && PoolRowOf(req)(i) + j < |plan|
    ensures var p := req.pools[i];
            StepOf(req)(PoolRowOf(req)(i) + j) == Place(-(p.id + 1), j, PoolSize(req, p), HashAt(p.hashes, j), Holders(p.first, p.second))
  {
    SuccessPlaces(f, req, plan);
    PoolSpot(req, i, j, total);
  }

  /** Entry `j` of pool `i` is that cross-parity shard, with the pool's hash and shard size where it has
      them, and otherwise the planned size of its first segment. */
  lemma PoolEntry(f: Field, req: Request, plan: seq<Assignment>, i: nat, j: nat, total: nat)
    requires Succeeds(f, req)(plan) && i < |req.pools| && j < total == req.dataShards + req.parityShards
    ensures PoolRowOf(req)(i) + j < |plan|
    ensures var a, p := plan[PoolRowOf(req)(i) + j], req.pools[i];
            && a.segment == -p.id - 1 && a.shard == j
            && (j < |p.hashes| ==> a.hash == p.hashes[j]) && (j >= |p.hashes| ==> a.hash == "")
            && (p.shardSize > 0 || p.first >= |req.segments| ==> a.size == p.shardSize)
            && (p.shardSize <= 0 && p.first < |req.segments| && PlannedSize(req, p.first).Ok? ==> PlannedSize(req, p.first) == Ok(a.size))
            && (p.shardSize <= 0 && p.first < |req.segments| && PlannedSize(req, p.first).Err? ==> a.size == 0)
  {
    PoolStep(f, req, plan, i, j, total);
    EntryIs(f, req, plan, PoolRowOf(req)(i) + j);
  }

  // ---------------------------------------------------------------- where each shard goes

  /** What a miner has free: capacity less what is used and reserved. */
  lemma AvailableIs(m: Miner)
    requires m.capacity <= MAX_U64
    ensures Available(m) == if m.capacity >= m.used + m.reserved then m.capacity - m.used - m.reserved else 0
  {
  }

  /** A negative size becomes its two's complement. */
  lemma NegativeSizeWraps(x: int)
    requires -0x8000_0000_0000_0000 <= x < 0
    ensures U64(x) == x + 0x1_0000_0000_0000_0000
  {
    assert (x + TWO64) % TWO64 == x + TWO64;
    assert x % TWO64 == (x + TWO64) % TWO64;
  }

  /** Offset `o` of the rotation from `start` is where a shard belongs: the first miner with room that is
      not avoided, and the first with room at all only when every other one is avoided or full. */
  ghost predicate BelongsAt(miners: seq<Miner>, before: seq<Assignment>, avoid: set<Addr>, start: nat, size: nat, o: nat)
    requires start < |miners| && o < |miners|
  {
    var n := |miners|;
    var m := miners[At(start, o, n)];
    && Free(before, m) >= size
    && (m.addr !in avoid ==>
          forall x | 0 <= x < o :: miners[At(start, x, n)].addr in avoid || Free(before, miners[At(start, x, n)]) < size)
    && (m.addr in avoid ==>
          && (forall x | 0 <= x < n :: miners[x].addr in avoid || Free(before, miners[x]) < size)
          && (forall x | 0 <= x < o :: Free(before, miners[At(start, x, n)]) < size))
  }

  lemma PickBelongs(f: Field, plan: seq<Assignment>, avoid: set<Addr>, start: nat, size: nat, i: nat) returns (o: nat)
    requires start < |f.miners| && Pick(f, plan, avoid, start, size) == Some(i)
    ensures o < |f.miners| && At(start, o, |f.miners|) == i && BelongsAt(f.miners, plan, avoid, start, size, o)
  {
    var n, room, any := |f.miners|, Room(f.miners, plan, avoid, size), Room(f.miners, plan, {}, size);
    o := FirstPass(room, start, n, 0);
    if o < n {
      forall x | 0 <= x < o ensures f.miners[At(start, x, n)].addr in avoid || Free(plan, f.miners[At(start, x, n)]) < size {
        assert !room(At(start, x, n));
      }
    } else {
      NonePass(room, start, n);
      o := FirstPass(any, start, n, 0);
      forall x | 0 <= x < n ensures f.miners[x].addr in avoid || Free(plan, f.miners[x]) < size { assert !room(x); }
      forall x | 0 <= x < o ensures Free(plan, f.miners[At(start, x, n)]) < size { assert !any(At(start, x, n)); }
    }
  }

  /** Entry `k` is on the miner where a shard belongs that avoids `avoid`, in the rotation starting at the
      hash of its position. */
  ghost predicate PlacedAt(f: Field, plan: seq<Assignment>, k: nat, avoid: set<Addr>)
    requires k < |plan| && f.miners != []
  {
    var start := f.hash(plan[k].segment, plan[k].shard) % |f.miners|;
    exists o | 0 <= o < |f.miners| ::
      && BelongsAt(f.miners, plan[..k], avoid, start, U64(plan[k].size), o)
      && plan[k].miner == f.miners[At(start, o, |f.miners|)].addr
  }

  lemma PutBelongs(f: Field, plan: seq<Assignment>, k: nat, s: Step)
    requires f.miners != [] && k < |plan| && s.Place? && Put(f, plan[..k], s) == Ok(plan[k])
    ensures PlacedAt(f, plan, k, Avoided(plan[..k], s))
  {
    var start, avoid := Start(f.hash(s.segment, s.shard), |f.miners|), Avoided(plan[..k], s);
    StartIs(f.hash(s.segment, s.shard), |f.miners|);
    var o := PickBelongs(f, plan[..k], avoid, start, U64(s.size), Pick(f, plan[..k], avoid, start, U64(s.size)).value);
  }

  lemma EntryBelongs(f: Field, req: Request, plan: seq<Assignment>, k: nat, avoid: set<Addr>)
    requires Succeeds(f, req)(plan) && k < |plan|
    requires StepOf(req)(k).Place? && Avoided(plan[..k], StepOf(req)(k)) == avoid
    ensures f.miners != [] && PlacedAt(f, plan, k, avoid)
  {
    EntryIs(f, req, plan, k);
    AssignLength(Putting(f), Steps(req), |Steps(req)|);
    StepPut(Putting(f), Steps(req), |plan|, plan, k);
    PutBelongs(f, plan, k, StepOf(req)(k));
  }

  lemma StartIs(hash: nat, n: nat)
    requires n > 0
    ensures Start(hash, n) == hash % n
  {
  }

  ghost function MinersOf(part: seq<Assignment>): set<Addr> { set a | a in part :: a.miner }

  lemma BeforeSegment(f: Field, req: Request, plan: seq<Assignment>, i: nat, total: nat, y: nat)
    requires Succeeds(f, req)(plan) && i < |req.segments| && 0 < total == TotalShards(req) && y < RowOf(req)(i)
    ensures y < |plan| && plan[y].segment != i
  {
    SegmentStep(f, req, plan, i, 0, total);
    SegmentBelow(req, i);
    SegmentPrefix(req, i, |req.segments|);
    assert SegmentsUpTo(req, i)[y] == Steps(req)[y];
    EntryIs(f, req, plan, y);
  }

  lemma UsedIsRow(plan: seq<Assignment>, i: nat, j: nat, total: nat, base: nat, size: int)
    requires j < total && base + total <= |plan| && IsRow(plan[base..base + total], i, size)
    requires forall y | 0 <= y < base :: plan[y].segment != i
    ensures UsedIn(plan[..base + j], i) == MinersOf(plan[base..base + j])
  {
    var before, row, part := plan[..base + j], plan[base..base + total], plan[base..base + j];
    forall a | a in part ensures a in before && a.segment == i {
      var x :| 0 <= x < j && part[x] == a;
      assert row[x] == a && before[base + x] == a;
    }
    forall a | a in before && a.segment == i ensures a in part {
      var y :| 0 <= y < |before| && before[y] == a;
      assert part[y - base] == a;
    }
  }

  /** Shard `j` of segment `i` goes to the first miner in rotation with room that holds no earlier shard
      of the segment; one that does is taken only when every other miner is full. */
  lemma ShardGoesTo(f: Field, req: Request, plan: seq<Assignment>, i: nat, j: nat, total: nat)
    requires Succeeds(f, req)(plan) && i < |req.segments| && j < total == req.dataShards + req.parityShards
    ensures var base := RowOf(req)(i);
            base + j < |plan| && f.miners != [] && PlacedAt(f, plan, base + j, MinersOf(plan[base..base + j]))
  {
    var k := RowOf(req)(i) + j;
    SegmentStep(f, req, plan, i, j, total);
    StepAvoids(f, req, plan, i, j, total, StepOf(req)(k));
    EntryBelongs(f, req, plan, k, MinersOf(plan[RowOf(req)(i)..k]));
  }

  lemma StepAvoids(f: Field, req: Request, plan: seq<Assignment>, i: nat, j: nat, total: nat, s: Step)
    requires Succeeds(f, req)(plan) && i < |req.segments| && j < total == TotalShards(req)
    requires s.Place? && s.segment == i && s.avoid == SameSegment
    ensures var base := RowOf(req)(i); base + j < |plan| && Avoided(plan[..base + j], s) == MinersOf(plan[base..base + j])
  {
    SegmentAvoids(f, req, plan, i, j, total);
  }

  lemma SegmentAvoids(f: Field, req: Request, plan: seq<Assignment>, i: nat, j: nat, total: nat)
    requires Succeeds(f, req)(plan) && i < |req.segments| && j < total == TotalShards(req)
    ensures var base := RowOf(req)(i); base + j < |plan| && UsedIn(plan[..base + j], i) == MinersOf(plan[base..base + j])
  {
    var base := RowOf(req)(i);
    var row := SegmentRow(f, req, plan, i, total);
    forall y | 0 <= y < base ensures plan[y].segment != i { BeforeSegment(f, req, plan, i, total, y); }
    UsedIsRow(plan, i, j, total, base, PlannedSize(req, i).value);
  }

  /** The holder of a segment's shard, once all segments are placed. */
  lemma HolderIs(f: Field, req: Request, plan: seq<Assignment>, g: nat, j: nat, total: nat, k: nat)
    requires Succeeds(f, req)(plan) && g < |req.segments| && j < total == TotalShards(req) && PoolRowOf(req)(0) <= k < |plan|
    ensures RowOf(req)(g) + j < |plan| && Holder(plan[..k], g, j) == {plan[RowOf(req)(g) + j].miner}
  {
    var base := RowOf(req)(g);
    SegmentStep(f, req, plan, g, j, total);
    var row := SegmentRow(f, req, plan, g, total);
    forall y | 0 <= y < base ensures plan[y].segment != g { BeforeSegment(f, req, plan, g, total, y); }
    OwnIsFirst(plan, g, j, total, base, k, PlannedSize(req, g).value);
  }

  lemma OwnIsFirst(plan: seq<Assignment>, g: nat, j: nat, total: nat, base: nat, k: nat, size: int)
    requires j < total && base + total <= k <= |plan| && IsRow(plan[base..base + total], g, size)
    requires forall y | 0 <= y < base :: plan[y].segment != g
    ensures Holder(plan[..k], g, j) == {plan[base + j].miner}
  {
    var before, row := plan[..k], plan[base..base + total];
    assert row[j] == plan[base + j] == before[base + j];
    var at := Lookup(before, g, j);
    assert before[at] == plan[at];
    assert base <= at ==> row[at - base] == plan[at];
  }

  lemma PoolAvoids(f: Field, req: Request, plan: seq<Assignment>, p: Pool, j: nat, total: nat, k: nat, s: Step)
    requires Succeeds(f, req)(plan) && 0 <= p.first < |req.segments| && 0 <= p.second < |req.segments|
    requires j < total == TotalShards(req) && PoolRowOf(req)(0) <= k < |plan|
    requires s.Place? && s.shard == j && s.avoid == Holders(p.first, p.second)
    ensures RowOf(req)(p.first) + j < |plan| && RowOf(req)(p.second) + j < |plan|
    ensures Avoided(plan[..k], s) == {plan[RowOf(req)(p.first) + j].miner, plan[RowOf(req)(p.second) + j].miner}
  {
    HolderIs(f, req, plan, p.first, j, total, k);
    HolderIs(f, req, plan, p.second, j, total, k);
  }

  /** Shard `j` of repair pool `i` goes to the first miner in rotation with room that does not hold shard
      `j` of either paired segment. */
  lemma PoolShardGoesTo(f: Field, req: Request, plan: seq<Assignment>, i: nat, p: Pool, j: nat, total: nat)
    returns (k: nat, first: nat, second: nat)
    requires Succeeds(f, req)(plan) && i < |req.pools| && req.pools[i] == p && j < total == req.dataShards + req.parityShards
    requires 0 <= p.first < |req.segments| && 0 <= p.second < |req.segments|
    ensures k == PoolRowOf(req)(i) + j && first == RowOf(req)(p.first) + j && second == RowOf(req)(p.second) + j
    ensures f.miners != [] && k < |plan| && first < |plan| && second < |plan|
    ensures PlacedAt(f, plan, k, {plan[first].miner, plan[second].miner})
  {
    PoolStep(f, req, plan, i, j, total);
    k := PoolRowOf(req)(i) + j;
    first, second := PairBelongs(f, req, plan, p, j, total, k);
  }

  lemma PairBelongs(f: Field, req: Request, plan: seq<Assignment>, p: Pool, j: nat, total: nat, k: nat) returns (first: nat, second: nat)
    requires Succeeds(f, req)(plan) && 0 <= p.first < |req.segments| && 0 <= p.second < |req.segments|
    requires j < total == TotalShards(req) && PoolRowOf(req)(0) <= k < |plan|
    requires var s := StepOf(req)(k); s.Place? && s.shard == j && s.avoid == Holders(p.first, p.second)
    ensures first == RowOf(req)(p.first) + j && second == RowOf(req)(p.second) + j
    ensures f.miners != [] && first < |plan| && second < |plan| && PlacedAt(f, plan, k, {plan[first].miner, plan[second].miner})
  {
    first, second := RowOf(req)(p.first) + j, RowOf(req)(p.second) + j;
    PoolAvoids(f, req, plan, p, j, total, k, StepOf(req)(k));
    EntryBelongs(f, req, plan, k, {plan[first].miner, plan[second].miner});
  }

  // ---------------------------------------------------------------- reserving and releasing

  type Miners = map<Addr, Miner>

  function Stats(ms: Miners, a: Addr): Miner { if a in ms then ms[a] else Miner(a, 0, 0, 0) }

  function ReserveOne(ms: Miners, a: Assignment): Miners {
    var m := Stats(ms, a.miner);
    ms[a.miner := if a.size > 0 then m.(reserved := SatAdd(m.reserved, a.size)) else m]
  }

  function ReleaseOne(ms: Miners, a: Assignment): Miners {
    if a.miner == "" || a.size <= 0 then ms
    else
      var m := Stats(ms, a.miner);
      ms[a.miner := m.(reserved := if m.reserved < a.size then 0 else m.reserved - a.size)]
  }

  function ReserveAll(ms: Miners, plan: seq<Assignment>): Miners {
    if plan == [] then ms else ReserveOne(ReserveAll(ms, plan[..|plan| - 1]), plan[|plan| - 1])
  }

  function ReleaseAll(ms: Miners, plan: seq<Assignment>): Miners {
    if plan == [] then ms else ReleaseOne(ReleaseAll(ms, plan[..|plan| - 1]), plan[|plan| - 1])
  }

  /** Bytes an assignment reserves. */
  function Weight(a: Assignment): nat { if a.size > 0 then a.size else 0 }

  function Reserved(plan: seq<Assignment>, a: Addr): nat {
    if plan == [] then 0
    else Reserved(plan[..|plan| - 1], a) + (if plan[|plan| - 1].miner == a then Weight(plan[|plan| - 1]) else 0)
  }

  lemma {:induction false} ReservedWithinLoad(plan: seq<Assignment>, a: Addr)
    ensures Reserved(plan, a) <= Load(plan, a)
  {
    if plan != [] { ReservedWithinLoad(plan[..|plan| - 1], a); }
  }

  /** Every assigned miner is known. */
  predicate Known(ms: Miners, plan: seq<Assignment>) { forall i | 0 <= i < |plan| :: plan[i].miner in ms && plan[i].miner != "" }

  lemma {:induction false} ReserveAdds(ms: Miners, plan: seq<Assignment>, a: Addr)
    requires Known(ms, plan) && a in ms && ms[a].reserved + Reserved(plan, a) <= MAX_U64
    ensures ReserveAll(ms, plan).Keys == ms.Keys
    ensures ReserveAll(ms, plan)[a] == ms[a].(reserved := ms[a].reserved + Reserved(plan, a))
  {
    if plan != [] { ReserveAdds(ms, plan[..|plan| - 1], a); }
  }

  lemma {:induction false} ReleaseSubtracts(ms: Miners, plan: seq<Assignment>, a: Addr)
    requires Known(ms, plan) && a in ms && ms[a].reserved >= Reserved(plan, a)
    ensures ReleaseAll(ms, plan).Keys == ms.Keys
    ensures ReleaseAll(ms, plan)[a] == ms[a].(reserved := ms[a].reserved - Reserved(plan, a))
  {
    if plan != [] { ReleaseSubtracts(ms, plan[..|plan| - 1], a); }
  }

  /** After a plan is reserved no miner is over capacity, and each has exactly its share less free. */
  lemma ReservationFits(f: Field, req: Request, plan: seq<Assignment>, ms: Miners, i: nat)
    requires DistinctMiners(f.miners) && Plan(f, req) == Ok(plan) && Known(ms, plan)
    requires i < |f.miners| && f.miners[i].addr in ms && ms[f.miners[i].addr] == f.miners[i]
    requires f.miners[i].capacity <= MAX_U64 && Available(f.miners[i]) > 0
    ensures var m := Stats(ReserveAll(ms, plan), f.miners[i].addr);
            m.used + m.reserved <= m.capacity && Available(m) == Available(f.miners[i]) - Reserved(plan, m.addr)
  {
    var m := f.miners[i];
    PlanFits(Putting(f), f, Steps(req), |Steps(req)|, plan);
    ReservedWithinLoad(plan, m.addr);
    ReserveAdds(ms, plan, m.addr);
  }

  lemma {:induction false} ReservedSplits(s: seq<Assignment>, t: seq<Assignment>, a: Addr)
    ensures Reserved(s + t, a) == Reserved(s, a) + Reserved(t, a)
  {
    if t == [] {
      assert s + t == s;
    } else {
      ReservedSplits(s, t[..|t| - 1], a);
      assert (s + t)[..|s + t| - 1] == s + t[..|t| - 1];
    }
  }

  lemma ReservedTakeOut(t: seq<Assignment>, i: nat, a: Addr)
    requires i < |t|
    ensures Reserved(t, a) == Reserved(t[..i] + t[i + 1..], a) + (if t[i].miner == a then Weight(t[i]) else 0)
    ensures multiset(t[..i] + t[i + 1..]) == multiset(t) - multiset{t[i]}
  {
    assert t == t[..i + 1] + t[i + 1..] && t[..i + 1][..i] == t[..i];
    assert t == t[..i] + [t[i]] + t[i + 1..];
    ReservedSplits(t[..i + 1], t[i + 1..], a);
    ReservedSplits(t[..i], t[i + 1..], a);
  }

  lemma DropLast(s: seq<Assignment>)
    requires s != []
    ensures multiset(s[..|s| - 1]) == multiset(s) - multiset{s[|s| - 1]} && s[|s| - 1] in multiset(s)
  {
    assert s == s[..|s| - 1] + [s[|s| - 1]];
  }

  lemma {:induction false} ReservedReordered(s: seq<Assignment>, t: seq<Assignment>, a: Addr)
    requires multiset(s) == multiset(t)
    ensures Reserved(s, a) == Reserved(t, a)
    decreases |s|
  {
    if s == [] {
      assert |multiset(t)| == 0;
    } else {
      var n := |s| - 1;
      DropLast(s);
      assert s[n] in multiset(t);
      var i :| 0 <= i < |t| && t[i] == s[n];
      ReservedTakeOut(t, i, a);
      ReservedReordered(s[..n], t[..i] + t[i + 1..], a);
    }
  }

  /** Releasing a plan's assignments, in any order, undoes its reservation. */
  lemma ReleaseUndoesReserve(ms: Miners, plan: seq<Assignment>, back: seq<Assignment>)
    requires Known(ms, plan) && multiset(plan) == multiset(back)
    requires forall a | a in ms :: ms[a].reserved + Reserved(plan, a) <= MAX_U64
    ensures ReleaseAll(ReserveAll(ms, plan), back) == ms
  {
    var held := ReserveAll(ms, plan);
    KeysKept(ms, plan);
    KnownReordered(ms, plan, back);
    assert Known(held, back);
    forall a | a in ms ensures a in ReleaseAll(held, back) && ReleaseAll(held, back)[a] == ms[a] {
      ReserveAdds(ms, plan, a);
      ReservedReordered(plan, back, a);
      ReleaseSubtracts(held, back, a);
    }
    KeysKept(held, back);
  }

  lemma KnownReordered(ms: Miners, plan: seq<Assignment>, back: seq<Assignment>)
    requires Known(ms, plan) && multiset(plan) == multiset(back)
    ensures Known(ms, back)
  {
    forall i | 0 <= i < |back| ensures back[i].miner in ms && back[i].miner != "" {
      assert back[i] in multiset(plan);
      assert back[i] in plan;
    }
  }

  lemma {:induction false} KeysKept(ms: Miners, plan: seq<Assignment>)
    requires Known(ms, plan)
    ensures ReleaseAll(ms, plan).Keys == ms.Keys && ReserveAll(ms, plan).Keys == ms.Keys
  {
    if plan != [] { KeysKept(ms, plan[..|plan| - 1]); }
  }

  class MinerStore {
    var miners: Miners

    method ReserveAssignments(plan: seq<Assignment>)
      modifies this
      ensures miners == ReserveAll(old(miners), plan)
    {
      var i := 0;
      while i < |plan|
        invariant 0 <= i <= |plan| && miners == ReserveAll(old(miners), plan[..i])
      {
        assert plan[..i + 1][..i] == plan[..i];
        var m := Stats(miners, plan[i].miner);
        if plan[i].size > 0 { m := m.(reserved := SatAdd(m.reserved, plan[i].size)); }
        miners := miners[plan[i].miner := m];
        i := i + 1;
      }
      assert plan[..i] == plan;
    }

    method ReleaseReservation(a: Assignment)
      modifies this
      ensures miners == ReleaseOne(old(miners), a)
    {
      if a.miner == "" || a.size <= 0 { return; }
      var m := Stats(miners, a.miner);
      if m.reserved < a.size {
        m := m.(reserved := 0);
      } else {
        m := m.(reserved := m.reserved - a.size);
      }
      miners := miners[a.miner := m];
    }
  }

  // ---------------------------------------------------------------- the planner

  type Budget = map<Addr, nat>

  /** The planner's running availability is what is free beside the plan so far. */
  predicate Tracks(f: Field, plan: seq<Assignment>, available: Budget) {
    forall i | 0 <= i < |f.miners| :: f.miners[i].addr in available && available[f.miners[i].addr] == Free(plan, f.miners[i])
  }

  /** Walks the rotation once. */
  method Scan(f: Field, available: Budget, avoid: set<Addr>, start: nat, size: nat, ghost plan: seq<Assignment>) returns (k: nat)
    requires start < |f.miners| && Tracks(f, plan, available)
    ensures k == FirstPass(Room(f.miners, plan, avoid, size), start, |f.miners|, 0)
  {
    ghost var room := Room(f.miners, plan, avoid, size);
    var n := |f.miners|;
    k := 0;
    while k < n
      invariant k <= n && FirstPass(room, start, n, 0) == FirstPass(room, start, n, k)
    {
      AtIsModular(start, k, n);
      var m := f.miners[(start + k) % n];
      if m.addr !in avoid && available[m.addr] >= size { return; }
      k := k + 1;
    }
  }

  /** Two passes: the first skips the avoided miners. */
  method ChooseMiner(f: Field, available: Budget, avoid: set<Addr>, start: nat, size: nat, ghost plan: seq<Assignment>) returns (r: Option<nat>)
    requires start < |f.miners| && Tracks(f, plan, available)
    ensures r == Pick(f, plan, avoid, start, size)
  {
    var k := Scan(f, available, avoid, start, size, plan);
    if k < |f.miners| { return Some(At(start, k, |f.miners|)); }
    k := Scan(f, available, {}, start, size, plan);
    if k < |f.miners| { return Some(At(start, k, |f.miners|)); }
    return None;
  }

  lemma TracksOneMore(f: Field, plan: seq<Assignment>, available: Budget, i: nat, a: Assignment)
    requires DistinctMiners(f.miners) && Tracks(f, plan, available) && i < |f.miners|
    requires a.miner == f.miners[i].addr && available[a.miner] >= U64(a.size)
    ensures Tracks(f, plan + [a], available[a.miner := available[a.miner] - U64(a.size)])
  {
    assert (plan + [a])[..|plan|] == plan;
    forall k | 0 <= k < |f.miners|
      ensures Load(plan + [a], f.miners[k].addr) == Load(plan, f.miners[k].addr) + if k == i then U64(a.size) else 0
    {
      assert k != i ==> f.miners[k].addr != a.miner;
    }
  }

  /** Places one shard and takes its bytes from the budget. */
  method PlaceShard(f: Field, available: Budget, avoid: set<Addr>, s: Step, ghost plan: seq<Assignment>, ghost put: Putter)
    returns (r: Result<Assignment>, left: Budget)
    requires Puts(put, f) && f.miners != [] && DistinctMiners(f.miners) && Tracks(f, plan, available)
    requires s.Place? && avoid == Avoided(plan, s)
    ensures r == put(plan, s)
    ensures r.Ok? ==> r.value.segment == s.segment && Tracks(f, plan + [r.value], left)
  {
    left := available;
    var start, size := Start(f.hash(s.segment, s.shard), |f.miners|), U64(s.size);
    var choice := ChooseMiner(f, available, avoid, start, size, plan);
    assert put(plan, s) == Put(f, plan, s);
    if choice == None { return Err(NoCapacity), left; }
    var i := choice.value;
    PickAvoids(f, plan, avoid, start, size, i);
    var a := Assignment(s.segment, s.shard, f.miners[i].addr, s.hash, s.size);
    TracksOneMore(f, plan, available, i, a);
    left := available[a.miner := available[a.miner] - size];
    r := Ok(a);
  }

  /** Where planning stands after `n` steps: the plan so far and the budget left. */
  ghost function Standing(put: Putter, f: Field, steps: seq<Step>): (nat, seq<Assignment>, Budget) -> bool {
    (n: nat, plan, b: Budget) => n <= |steps| && Tracks(f, plan, b) && Assign(put, steps, n) == Ok(plan)
  }

  /** The steps from `n` on begin with `more`. */
  predicate Listed(steps: seq<Step>, n: nat, more: seq<Step>) {
    n + |more| <= |steps| && forall j | 0 <= j < |more| :: more[j] == steps[n + j]
  }

  /** Carries out step `n`. */
  method PlaceNext(f: Field, available: Budget, avoid: set<Addr>, s: Step, ghost plan: seq<Assignment>, ghost put: Putter, ghost steps: seq<Step>, ghost n: nat)
    returns (r: Result<Assignment>, left: Budget)
    requires f.miners != [] && Puts(put, f) && DistinctMiners(f.miners) && Standing(put, f, steps)(n, plan, available)
    requires n < |steps| && steps[n] == s && s.Place? && avoid == Avoided(plan, s)
    ensures r.Err? ==> AssignAll(put, steps) == Err(r.error)
    ensures r.Ok? ==> r.value.segment == s.segment && Standing(put, f, steps)(n + 1, plan + [r.value], left)
  {
    r, left := PlaceShard(f, available, avoid, s, plan, put);
    if r.Err? { StandingFails(put, f, steps, n, plan, available); } else { StandingMoves(put, f, steps, n, plan, available, r.value, left); }
  }

  lemma StandingMoves(put: Putter, f: Field, steps: seq<Step>, n: nat, plan: seq<Assignment>, b: Budget, a: Assignment, left: Budget)
    requires Standing(put, f, steps)(n, plan, b) && n < |steps| && put(plan, steps[n]) == Ok(a) && Tracks(f, plan + [a], left)
    ensures Standing(put, f, steps)(n + 1, plan + [a], left)
  {
  }

  lemma StandingFails(put: Putter, f: Field, steps: seq<Step>, n: nat, plan: seq<Assignment>, b: Budget)
    requires Standing(put, f, steps)(n, plan, b) && n < |steps| && put(plan, steps[n]).Err?
    ensures AssignAll(put, steps) == Err(put(plan, steps[n]).error)
  {
    ErrorStays(put, steps, n + 1, |steps|);
  }

  lemma UsedOneMore(plan: seq<Assignment>, a: Assignment, i: int)
    requires a.segment == i
    ensures UsedIn(plan + [a], i) == UsedIn(plan, i) + {a.miner}
  {
  }

  /** Where planning of segment `i` stands after `n` steps: also which miners the segment uses. */
  ghost function InSegment(put: Putter, f: Field, steps: seq<Step>, i: int): (nat, seq<Assignment>, set<Addr>, Budget) -> bool {
    (n: nat, plan, used, b: Budget) => Standing(put, f, steps)(n, plan, b) && used == UsedIn(plan, i)
  }

  /** Carries out step `n`, avoiding the miners already used in its segment. */
  method PlaceInSegment(f: Field, available: Budget, used: set<Addr>, s: Step, ghost plan: seq<Assignment>,
                        ghost put: Putter, ghost steps: seq<Step>, ghost n: nat)
    returns (r: Result<Assignment>, left: Budget)
    requires f.miners != [] && Puts(put, f) && DistinctMiners(f.miners)
    requires n < |steps| && steps[n] == s && s.Place? && s.avoid == SameSegment
    requires InSegment(put, f, steps, s.segment)(n, plan, used, available)
    ensures r.Err? ==> AssignAll(put, steps) == Err(r.error)
    ensures r.Ok? ==> InSegment(put, f, steps, s.segment)(n + 1, plan + [r.value], used + {r.value.miner}, left)
  {
    r, left := PlaceNext(f, available, used, s, plan, put, steps, n);
    if r.Ok? { UsedOneMore(plan, r.value, s.segment); }
  }

  /** The shards of one segment, on as many different miners as have room. */
  method PlaceSegment(f: Field, hashes: seq<string>, i: int, size: int, before: seq<Assignment>, available: Budget,
                      ghost put: Putter, ghost steps: seq<Step>, ghost n: nat, ghost more: seq<Step>)
    returns (r: Result<seq<Assignment>>, left: Budget)
    requires f.miners != [] && Puts(put, f) && DistinctMiners(f.miners) && InSegment(put, f, steps, i)(n, before, {}, available)
    requires |more| == |hashes| && Listed(steps, n, more)
    requires forall j | 0 <= j < |more| :: more[j] == Place(i, j, size, hashes[j], SameSegment)
    ensures if r.Ok? then Standing(put, f, steps)(n + |more|, r.value, left) else r == AssignAll(put, steps)
  {
    var plan, used: set<Addr> := before, {};
    left := available;
    var j := 0;
    while j < |hashes|
      invariant 0 <= j <= |hashes| && InSegment(put, f, steps, i)(n + j, plan, used, left)
    {
      assert more[j] == steps[n + j];
      var placed, rest := PlaceInSegment(f, left, used, Place(i, j, size, hashes[j], SameSegment), plan, put, steps, n + j);
      if placed.Err? { return Err(placed.error), left; }
      left, plan, used := rest, plan + [placed.value], used + {placed.value.miner};
      j := j + 1;
    }
    r := Ok(plan);
  }

  /** Looks up which miner holds a shard. */
  method AssignmentForShard(plan: seq<Assignment>, segment: int, shard: nat) returns (holder: set<Addr>)
    ensures holder == Holder(plan, segment, shard)
  {
    var i := 0;
    while i < |plan|
      invariant 0 <= i <= |plan| && forall k | 0 <= k < i :: plan[k].segment != segment || plan[k].shard != shard
    {
      if plan[i].segment == segment && plan[i].shard == shard { return {plan[i].miner}; }
      i := i + 1;
    }
    return {};
  }

  /** The cross-parity shards of one repair pool. */
  method PlacePool(f: Field, p: Pool, total: nat, size: int, before: seq<Assignment>, available: Budget,
                   ghost put: Putter, ghost steps: seq<Step>, ghost n: nat, ghost more: seq<Step>)
    returns (r: Result<seq<Assignment>>, left: Budget)
    requires f.miners != [] && Puts(put, f) && DistinctMiners(f.miners) && Standing(put, f, steps)(n, before, available)
    requires |more| == total && Listed(steps, n, more)
    requires forall j | 0 <= j < |more| :: more[j] == Place(-(p.id + 1), j, size, HashAt(p.hashes, j), Holders(p.first, p.second))
    ensures if r.Ok? then Standing(put, f, steps)(n + |more|, r.value, left) else r == AssignAll(put, steps)
  {
    var plan := before;
    left := available;
    var j := 0;
    while j < total
      invariant 0 <= j <= total && Standing(put, f, steps)(n + j, plan, left)
    {
      assert more[j] == steps[n + j];
      var first := AssignmentForShard(plan, p.first, j);
      var second := AssignmentForShard(plan, p.second, j);
      var s := Place(-(p.id + 1), j, size, HashAt(p.hashes, j), Holders(p.first, p.second));
      var placed, rest := PlaceNext(f, left, first + second, s, plan, put, steps, n + j);
      if placed.Err? { return Err(placed.error), left; }
      left, plan := rest, plan + [placed.value];
      j := j + 1;
    }
    r := Ok(plan);
  }

  lemma {:induction false} SegmentPrefix(req: Request, i: nat, m: nat)
    requires i <= m <= |req.segments|
    ensures SegmentsUpTo(req, i) <= SegmentsUpTo(req, m)
  {
    if i < m { SegmentPrefix(req, i, m - 1); }
  }

  lemma {:induction false} PoolPrefix(pools: seq<Pool>, block: Pool -> seq<Step>, i: nat, m: nat)
    requires i <= m <= |pools|
    ensures PoolsUpTo(pools, block, i) <= PoolsUpTo(pools, block, m)
  {
    if i < m { PoolPrefix(pools, block, i, m - 1); }
  }

  lemma ListedInside(a: seq<Step>, more: seq<Step>, whole: seq<Step>, tail: seq<Step>)
    requires a + more <= whole
    ensures Listed(whole + tail, |a|, more)
  {
    forall j | 0 <= j < |more| ensures more[j] == (whole + tail)[|a| + j] {
      assert (a + more)[|a| + j] == whole[|a| + j];
    }
  }

  /** Where each segment's steps are. */
  lemma SegmentListed(req: Request, i: nat)
    requires i < |req.segments|
    ensures Listed(Steps(req), |SegmentsUpTo(req, i)|, SegmentSteps(req, i))
    ensures |SegmentsUpTo(req, i + 1)| == |SegmentsUpTo(req, i)| + |SegmentSteps(req, i)|
  {
    SegmentPrefix(req, i + 1, |req.segments|);
    ListedInside(SegmentsUpTo(req, i), SegmentSteps(req, i), SegmentsUpTo(req, |req.segments|),
                 PoolsUpTo(req.pools, PoolBlock(req), |req.pools|));
  }

  /** Where each pool's steps are. */
  function PoolStart(req: Request, i: nat): nat
    requires i <= |req.pools|
  {
    |SegmentsUpTo(req, |req.segments|)| + |PoolsUpTo(req.pools, PoolBlock(req), i)|
  }

  lemma PoolListed(req: Request, i: nat)
    requires i < |req.pools|
    ensures Listed(Steps(req), PoolStart(req, i), PoolSteps(req, req.pools[i]))
    ensures PoolStart(req, i + 1) == PoolStart(req, i) + |PoolSteps(req, req.pools[i])|
  {
    var base, block, more := SegmentsUpTo(req, |req.segments|), PoolBlock(req), PoolSteps(req, req.pools[i]);
    PoolPrefix(req.pools, block, i + 1, |req.pools|);
    var before := PoolsUpTo(req.pools, block, i);
    assert before + more <= PoolsUpTo(req.pools, block, |req.pools|);
    assert (base + before) + more == base + (before + more);
    ListedInside(base + before, more, Steps(req), []);
    assert Steps(req) + [] == Steps(req);
  }

  lemma {:induction false} SegmentBelow(req: Request, n: nat)
    requires n <= |req.segments|
    ensures forall s | s in SegmentsUpTo(req, n) && s.Place? :: s.segment < n
  {
    if n > 0 { SegmentBelow(req, n - 1); }
  }

  /** No miner is used in a segment before it is planned. */
  lemma NoneYet(put: Putter, f: Field, req: Request, i: nat, plan: seq<Assignment>)
    requires f.miners != [] && Puts(put, f) && i <= |req.segments| && |SegmentsUpTo(req, i)| <= |Steps(req)|
    requires Assign(put, Steps(req), |SegmentsUpTo(req, i)|) == Ok(plan)
    ensures UsedIn(plan, i) == {}
  {
    var steps := Steps(req);
    AssignLength(put, steps, |SegmentsUpTo(req, i)|);
    SegmentBelow(req, i);
    SegmentPrefix(req, i, |req.segments|);
    forall k | 0 <= k < |plan| ensures plan[k].segment != i {
      StepCarried(put, f, steps, |plan|, plan, k);
      assert steps[k] == SegmentsUpTo(req, i)[k];
    }
  }

  /** Where each segment's steps begin. */
  ghost function SegmentStarts(req: Request): nat -> nat { (i: nat) => if i <= |req.segments| then |SegmentsUpTo(req, i)| else 0 }

  lemma SegmentEnds(req: Request, i: nat)
    requires i < |req.segments|
    ensures SegmentStarts(req)(i + 1) == SegmentStarts(req)(i) + |SegmentSteps(req, i)|
    ensures SegmentStarts(req)(0) == 0
  {
  }

  lemma SegmentRefused(put: Putter, f: Field, req: Request, i: nat, plan: seq<Assignment>, b: Budget, e: Error)
    requires Puts(put, f) && i < |req.segments| && Standing(put, f, Steps(req))(SegmentStarts(req)(i), plan, b)
    requires SegmentSteps(req, i) == [Fail(e)]
    ensures AssignAll(put, Steps(req)) == Err(e)
  {
    SegmentListed(req, i);
    StandingRefuses(put, f, Steps(req), SegmentStarts(req)(i), plan, b, e);
  }

  lemma SegmentReady(put: Putter, f: Field, req: Request, i: nat, plan: seq<Assignment>, b: Budget)
    requires f.miners != [] && Puts(put, f) && i < |req.segments| && Standing(put, f, Steps(req))(SegmentStarts(req)(i), plan, b)
    ensures InSegment(put, f, Steps(req), i)(SegmentStarts(req)(i), plan, {}, b)
  {
    NoneYet(put, f, req, i, plan);
  }

  /** One segment of the request; `n` and `m` are where its steps begin and end. */
  method PlanSegment(f: Field, req: Request, i: nat, before: seq<Assignment>, available: Budget,
                     ghost put: Putter, ghost steps: seq<Step>, ghost n: nat, ghost m: nat)
    returns (r: Result<seq<Assignment>>, left: Budget)
    requires f.miners != [] && Puts(put, f) && DistinctMiners(f.miners) && i < |req.segments|
    requires steps == Steps(req) && n == SegmentStarts(req)(i) && m == SegmentStarts(req)(i + 1)
    requires Standing(put, f, steps)(n, before, available)
    ensures if r.Ok? then Standing(put, f, steps)(m, r.value, left) else r == AssignAll(put, steps)
  {
    left := available;
    var size := PlannedSize(req, i);
    if |req.segments[i]| != TotalShards(req) {
      SegmentRefused(put, f, req, i, before, available, ShardCountMismatch);
      r := Err(ShardCountMismatch);
    } else if size.Err? {
      SegmentRefused(put, f, req, i, before, available, size.error);
      r := Err(size.error);
    } else {
      SegmentReady(put, f, req, i, before, available);
      SegmentListed(req, i);
      SegmentEnds(req, i);
      r, left := PlaceSegment(f, req.segments[i], i, size.value, before, available, put, steps, n, SegmentSteps(req, i));
    }
  }

  lemma StandingRefuses(put: Putter, f: Field, steps: seq<Step>, n: nat, plan: seq<Assignment>, b: Budget, e: Error)
    requires Puts(put, f) && Standing(put, f, steps)(n, plan, b) && Listed(steps, n, [Fail(e)])
    ensures AssignAll(put, steps) == Err(e)
  {
    assert steps[n] == [Fail(e)][0];
    assert put(plan, steps[n]) == Put(f, plan, steps[n]);
    StandingFails(put, f, steps, n, plan, b);
  }

  method PlanPool(f: Field, req: Request, i: nat, before: seq<Assignment>, available: Budget, ghost put: Putter)
    returns (r: Result<seq<Assignment>>, left: Budget)
    requires f.miners != [] && Puts(put, f) && DistinctMiners(f.miners) && i < |req.pools|
    requires Standing(put, f, Steps(req))(PoolStart(req, i), before, available)
    ensures if r.Ok? then Standing(put, f, Steps(req))(PoolStart(req, i + 1), r.value, left) else r == AssignAll(put, Steps(req))
  {
    var p := req.pools[i];
    PoolListed(req, i);
    r, left := PlacePool(f, p, ShardCount(req), PoolSize(req, p), before, available, put, Steps(req), PoolStart(req, i), PoolSteps(req, p));
  }

  method StartBudget(f: Field) returns (available: Budget)
    requires DistinctMiners(f.miners)
    ensures Tracks(f, [], available)
  {
    available := map[];
    var i := 0;
    while i < |f.miners|
      invariant 0 <= i <= |f.miners|
      invariant forall k | 0 <= k < i :: f.miners[k].addr in available && available[f.miners[k].addr] == Available(f.miners[k])
    {
      available := available[f.miners[i].addr := Available(f.miners[i])];
      i := i + 1;
    }
  }

  lemma PlanningStarts(put: Putter, f: Field, req: Request, b: Budget)
    requires Tracks(f, [], b)
    ensures Standing(put, f, Steps(req))(SegmentStarts(req)(0), [], b)
    ensures SegmentStarts(req)(|req.segments|) == PoolStart(req, 0)
  {
    assert SegmentStarts(req)(0) == 0;
    assert Standing(put, f, Steps(req))(0, [], b);
  }

  method PlanSegments(f: Field, req: Request, budget: Budget, ghost put: Putter, ghost steps: seq<Step>, ghost start: nat -> nat)
    returns (r: Result<seq<Assignment>>, available: Budget)
    requires f.miners != [] && Puts(put, f) && DistinctMiners(f.miners) && steps == Steps(req) && start == SegmentStarts(req)
    requires Standing(put, f, steps)(start(0), [], budget)
    ensures if r.Ok? then Standing(put, f, steps)(start(|req.segments|), r.value, available) else r == AssignAll(put, steps)
  {
    available := budget;
    var plan: seq<Assignment> := [];
    var i := 0;
    while i < |req.segments|
      invariant 0 <= i <= |req.segments| && Standing(put, f, steps)(start(i), plan, available)
    {
      r, available := PlanSegment(f, req, i, plan, available, put, steps, start(i), start(i + 1));
      if r.Err? { return; }
      plan, i := r.value, i + 1;
    }
    r := Ok(plan);
  }

  method PlanPools(f: Field, req: Request, before: seq<Assignment>, budget: Budget, ghost put: Putter)
    returns (r: Result<seq<Assignment>>)
    requires f.miners != [] && Puts(put, f) && DistinctMiners(f.miners)
    requires Standing(put, f, Steps(req))(PoolStart(req, 0), before, budget)
    ensures r == AssignAll(put, Steps(req))
  {
    var plan, available := before, budget;
    var i := 0;
    while i < |req.pools|
      invariant 0 <= i <= |req.pools| && Standing(put, f, Steps(req))(PoolStart(req, i), plan, available)
    {
      r, available := PlanPool(f, req, i, plan, available, put);
      if r.Err? { return; }
      plan, i := r.value, i + 1;
    }
    r := Ok(plan);
  }

  /** Plans every segment, then every repair pool, until something does not fit. */
  method BuildAssignments(f: Field, req: Request) returns (r: Result<seq<Assignment>>)
    requires DistinctMiners(f.miners)
    ensures r == Plan(f, req)
  {
    if f.miners == [] { return Ok([]); }
    if TotalShards(req) <= 0 { return Err(InvalidPolicy); }
    var available := StartBudget(f);
    PlanningStarts(Putting(f), f, req, available);
    r, available := PlanSegments(f, req, available, Putting(f), Steps(req), SegmentStarts(req));
    if r.Ok? { r := PlanPools(f, req, r.value, available, Putting(f)); }
  }
}
