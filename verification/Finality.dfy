/** Block certificates over one validator set, and the double-vote evidence two conflicting
    certificates give rise to. Signature checking and hashing are parameters. Blocks carrying
    `register_validator` transactions are outside this model. */
module Finality {
  import opened Numbers
  import opened Sums

  datatype Vote = Vote(height: nat, hash: string, validator: Addr, key: string, power: nat, signature: string)
  datatype Block = Block(height: nat, hash: string)
  datatype Validator = Validator(key: string, active: bool, stake: nat, selfStake: nat, delegated: nat)

  /** The registered validators, those admitted to consensus, and each owner's locked stake. */
  datatype Registry = Registry(validators: map<Addr, Validator>, consensus: set<Addr>, lockedStake: map<Addr, nat>)

  function Power(v: Validator): (p: nat)
    ensures p > 0
  {
    var self := if v.selfStake == 0 then v.stake else v.selfStake;
    var total := SatAdd(self, v.delegated);
    if total > 0 then total else 1
  }

  /** A validator votes with its own and its delegated stake, and with one where it has neither; own
      stake is all of its stake where it is not recorded apart. */
  lemma PowerIs(v: Validator)
    requires (if v.selfStake > 0 then v.selfStake else v.stake) + v.delegated <= MAX_U64
    ensures v.selfStake > 0 ==> Power(v) == v.selfStake + v.delegated
    ensures v.selfStake == 0 && v.stake + v.delegated > 0 ==> Power(v) == v.stake + v.delegated
    ensures v.selfStake == v.stake == v.delegated == 0 ==> Power(v) == 1
  {
  }

  function PowerAt(a: Addr, v: Validator): int { Power(v) }

  function Members(r: Registry): map<Addr, Validator> {
    map a | a in r.consensus && a in r.validators && r.validators[a].active :: r.validators[a]
  }

  ghost function PowerOf(m: map<Addr, Validator>, s: set<Addr>): int { Sum(Restrict(m, s), PowerAt) }

  function PowerForBlock(r: Registry, a: Addr, key: string): nat {
    if a in r.validators && r.validators[a].active && r.validators[a].key == key && a in r.consensus
    then Power(r.validators[a]) else 0
  }

  /** `validateBlockVoteLocked` */
  predicate Accepts(r: Registry, verify: Vote -> bool, block: Block, v: Vote) {
    && v.height == block.height && v.hash == block.hash
    && verify(v)
    && PowerForBlock(r, v.validator, v.key) != 0
    && v.power == PowerForBlock(r, v.validator, v.key)
  }

  function Threshold(total: nat): nat {
    if total == 0 then 0 else Min(total * 2 / 3 + 1, MAX_U64)
  }

  /** The threshold is the smallest power above two thirds of the total. */
  lemma ThresholdIs(total: nat, k: nat)
    requires 0 < total < MAX_U64
    ensures k >= Threshold(total) <==> 3 * k > 2 * total
  {
  }

  ghost function Signers(r: Registry, verify: Vote -> bool, block: Block, votes: seq<Vote>): set<Addr> {
    set v | v in votes && Accepts(r, verify, block, v) :: v.validator
  }

  ghost predicate Finalized(r: Registry, verify: Vote -> bool, block: Block, votes: seq<Vote>) {
    var total := Sum(Members(r), PowerAt);
    total > 0 && PowerOf(Members(r), Signers(r, verify, block, votes)) >= Threshold(total)
  }

  /** Total power fits in a uint64, as the token supply makes it. */
  ghost predicate PowerFits(r: Registry) { Sum(Members(r), PowerAt) <= MAX_U64 }

  // ---------------------------------------------------------------- counting votes

  lemma OneMoreSigner(m: map<Addr, Validator>, s: set<Addr>, a: Addr)
    requires a in m && a !in s
    ensures PowerOf(m, s + {a}) == PowerOf(m, s) + Power(m[a])
  {
    RestrictGrows(m, s, a, PowerAt);
  }

  lemma {:induction false} PartOfTotal(m: map<Addr, Validator>, s: set<Addr>)
    ensures 0 <= PowerOf(m, s) <= Sum(m, PowerAt)
    decreases m.Keys
  {
    if m.Keys == {} {
      SumEmpty(m, PowerAt);
      SumEmpty(Restrict(m, s), PowerAt);
    } else {
      var a :| a in m.Keys;
      SumPick(m, PowerAt, a);
      PartOfTotal(m - {a}, s);
      if a in s {
        SumPick(Restrict(m, s), PowerAt, a);
        assert Restrict(m, s) - {a} == Restrict(m - {a}, s);
      } else {
        assert Restrict(m, s) == Restrict(m - {a}, s);
      }
    }
  }

  /** The vote count behind a certificate: repeated and invalid votes add nothing, so the result is
      the power of the distinct validators with a valid vote. */
  method BlockFinality(r: Registry, verify: Vote -> bool, block: Block, votes: seq<Vote>)
    returns (votingPower: nat, totalPower: nat, finalized: bool)
    requires PowerFits(r)
    ensures votingPower == PowerOf(Members(r), Signers(r, verify, block, votes))
    ensures totalPower == Sum(Members(r), PowerAt)
    ensures finalized <==> Finalized(r, verify, block, votes)
  {
    totalPower := TotalVotingPower(r);
    var seen: set<Addr> := {};
    votingPower := 0;
    ghost var m := Members(r);
    SumEmpty(Restrict(m, {}), PowerAt);
    var i := 0;
    while i < |votes|
      invariant 0 <= i <= |votes|
      invariant seen == Signers(r, verify, block, votes[..i]) <= m.Keys
      invariant votingPower == PowerOf(m, seen)
    {
      var v := votes[i];
      assert votes[..i + 1] == votes[..i] + [v];
      if v.validator !in seen && Accepts(r, verify, block, v) {
        OneMoreSigner(m, seen, v.validator);
        PartOfTotal(m, seen + {v.validator});
        seen := seen + {v.validator};
        votingPower := SatAdd(votingPower, PowerForBlock(r, v.validator, v.key));
      }
      i := i + 1;
    }
    assert votes[..i] == votes;
    finalized := totalPower > 0 && votingPower >= Threshold(totalPower);
  }

  method TotalVotingPower(r: Registry) returns (total: nat)
    requires PowerFits(r)
    ensures total == Sum(Members(r), PowerAt)
  {
    total := 0;
    var members := Members(r);
    var todo := members.Keys;
    ghost var left := members;
    while todo != {}
      invariant todo == left.Keys <= members.Keys && forall a | a in left :: left[a] == members[a]
      invariant total + Sum(left, PowerAt) == Sum(members, PowerAt)
    {
      var a :| a in todo;
      SumPick(left, PowerAt, a);
      SumNonNegative(left - {a}, PowerAt);
      total := SatAdd(total, Power(members[a]));
      todo, left := todo - {a}, left - {a};
    }
    SumEmpty(left, PowerAt);
  }

  // ---------------------------------------------------------------- evidence

  datatype Evidence = Evidence(id: string, height: nat, validator: Addr, key: string, power: nat,
                               firstHash: string, secondHash: string, firstSignature: string, secondSignature: string,
                               slashed: nat)

  type Hash = (Addr, nat, string, string) -> string

  function EvidenceId(hash: Hash, a: Vote, b: Vote): string {
    if Lex(b.hash, a.hash) then hash(a.validator, a.height, b.hash, a.hash)
    else hash(a.validator, a.height, a.hash, b.hash)
  }

  /** The two votes may be reported in either order: the evidence has one id. */
  lemma EvidenceIdSymmetric(hash: Hash, a: Vote, b: Vote)
    requires a.validator == b.validator && a.height == b.height
    ensures EvidenceId(hash, a, b) == EvidenceId(hash, b, a)
  {
    LexTotal(a.hash, b.hash);
  }

  function DoubleVoteSlash(locked: nat): (s: nat)
    ensures s <= locked && (locked > 0 ==> s > 0)
  {
    if locked <= 1 then locked else locked / 2
  }

  function LockedStake(r: Registry, a: Addr): nat { if a in r.lockedStake then r.lockedStake[a] else 0 }

  /** `buildDoubleVoteEvidence` for a pair that has not been reported before. */
  function BuildEvidence(r: Registry, verify: Vote -> bool, hash: Hash, a: Vote, b: Vote): Option<Evidence> {
    if !verify(a) || !verify(b) then None
    else if a.height == 0 || a.height != b.height then None
    else if a.validator == "" || a.validator != b.validator then None
    else if a.key == "" || a.key != b.key then None
    else if a.power == 0 || a.power != b.power then None
    else if a.hash == b.hash then None
    else if a.validator !in r.validators || !r.validators[a.validator].active then None
    else if r.validators[a.validator].key != a.key then None
    else if Power(r.validators[a.validator]) != a.power then None
    else Some(Evidence(EvidenceId(hash, a, b), a.height, a.validator, a.key, a.power, a.hash, b.hash,
                       a.signature, b.signature, DoubleVoteSlash(LockedStake(r, a.validator))))
  }

  function VoteOf(e: Evidence, hash: string, signature: string): Vote {
    Vote(e.height, hash, e.validator, e.key, e.power, signature)
  }

  /** `validateValidatorEvidenceLocked` */
  predicate ValidEvidence(r: Registry, verify: Vote -> bool, hash: Hash, e: Evidence) {
    var a, b := VoteOf(e, e.firstHash, e.firstSignature), VoteOf(e, e.secondHash, e.secondSignature);
    && e.id != "" && e.height != 0 && e.validator != "" && e.key != ""
    && e.firstHash != "" && e.secondHash != "" && e.firstHash != e.secondHash
    && verify(a) && verify(b)
    && e.id == EvidenceId(hash, a, b)
    && e.validator in r.validators
    && r.validators[e.validator].key == e.key && r.validators[e.validator].active
    && Power(r.validators[e.validator]) == e.power
    && e.slashed == DoubleVoteSlash(LockedStake(r, e.validator))
  }

  /** The evidence built for a pair of votes is valid evidence, or there is none. */
  lemma BuiltIsValid(r: Registry, verify: Vote -> bool, hash: Hash, a: Vote, b: Vote)
    requires a.hash != "" && b.hash != "" && (forall x: Addr, h: nat, p: string, q: string :: hash(x, h, p, q) != "")
    ensures BuildEvidence(r, verify, hash, a, b).Some? ==> CaughtBy(r, verify, hash, a, b)
  {
    var e := BuildEvidence(r, verify, hash, a, b);
    if e.Some? {
      assert VoteOf(e.value, e.value.firstHash, e.value.firstSignature) == a;
      assert VoteOf(e.value, e.value.secondHash, e.value.secondSignature) == b;
    }
  }

  /** Valid evidence names an active validator by its registered key, two votes of it at one height, for
      different blocks and both verified, and half of its locked stake as the slash. */
  lemma EvidenceMeansTwoVotes(r: Registry, verify: Vote -> bool, hash: Hash, e: Evidence)
    requires ValidEvidence(r, verify, hash, e)
    ensures e.validator in r.validators && r.validators[e.validator].active && r.validators[e.validator].key == e.key
    ensures e.firstHash != e.secondHash && e.height > 0
    ensures verify(Vote(e.height, e.firstHash, e.validator, e.key, e.power, e.firstSignature))
    ensures verify(Vote(e.height, e.secondHash, e.validator, e.key, e.power, e.secondSignature))
    ensures e.validator !in r.lockedStake ==> e.slashed == 0
    ensures e.validator in r.lockedStake ==>
              var stake := r.lockedStake[e.validator];
              if stake <= 1 then e.slashed == stake else 2 * e.slashed <= stake < 2 * e.slashed + 2
  {
  }

  /** A validator whose key signs at most one block at each height can never be convicted. */
  lemma HonestIsNeverConvicted(r: Registry, verify: Vote -> bool, hash: Hash, e: Evidence)
    requires e.validator in r.validators
    requires forall v, w: Vote | verify(v) && verify(w) && v.key == w.key == r.validators[e.validator].key && v.height == w.height :: v.hash == w.hash
    ensures !ValidEvidence(r, verify, hash, e)
  {
    var a, b := VoteOf(e, e.firstHash, e.firstSignature), VoteOf(e, e.secondHash, e.secondSignature);
    assert a.key == b.key && a.height == b.height;
  }

  /** A final block has verified votes for it, from active consensus validators under their registered
      keys and at their power, that together hold more than two thirds of the total. */
  lemma FinalMeansTwoThirds(r: Registry, verify: Vote -> bool, block: Block, votes: seq<Vote>)
    requires Finalized(r, verify, block, votes) && Sum(Members(r), PowerAt) < MAX_U64
    ensures var signers := Signers(r, verify, block, votes);
            && 3 * PowerOf(Members(r), signers) > 2 * Sum(Members(r), PowerAt)
            && forall a | a in signers ::
                 && a in r.consensus && a in r.validators && r.validators[a].active
                 && exists v :: v in votes && v.validator == a && verify(v) && v.height == block.height && v.hash == block.hash
                                && v.key == r.validators[a].key && v.power == Power(r.validators[a])
  {
    var signers := Signers(r, verify, block, votes);
    ThresholdIs(Sum(Members(r), PowerAt), PowerOf(Members(r), signers));
    forall a | a in signers
      ensures a in r.consensus && a in r.validators && r.validators[a].active
      ensures exists v :: v in votes && v.validator == a && verify(v) && v.height == block.height && v.hash == block.hash
                          && v.key == r.validators[a].key && v.power == Power(r.validators[a])
    {
      var v :| v in votes && Accepts(r, verify, block, v) && v.validator == a;
    }
  }

  // ---------------------------------------------------------------- accountable safety

  /** Two sets of members: their powers together are at most the total plus the power they share. */
  lemma {:induction false} Overlap(m: map<Addr, Validator>, s: set<Addr>, t: set<Addr>)
    ensures PowerOf(m, s) + PowerOf(m, t) <= Sum(m, PowerAt) + PowerOf(m, s * t)
    decreases m.Keys
  {
    if m.Keys == {} {
      SumEmpty(m, PowerAt);
      SumEmpty(Restrict(m, s), PowerAt);
      SumEmpty(Restrict(m, t), PowerAt);
      SumEmpty(Restrict(m, s * t), PowerAt);
    } else {
      var a :| a in m.Keys;
      SumPick(m, PowerAt, a);
      Overlap(m - {a}, s, t);
      WithoutMember(m, s, a);
      WithoutMember(m, t, a);
      WithoutMember(m, s * t, a);
    }
  }

  lemma WithoutMember(m: map<Addr, Validator>, s: set<Addr>, a: Addr)
    requires a in m
    ensures PowerOf(m, s) == PowerOf(m - {a}, s) + (if a in s then Power(m[a]) else 0)
  {
    if a in s {
      SumPick(Restrict(m, s), PowerAt, a);
      assert Restrict(m, s) - {a} == Restrict(m - {a}, s);
    } else {
      assert Restrict(m, s) == Restrict(m - {a}, s);
    }
  }

  /** Names, keys and hashes are never empty. */
  ghost predicate Named(r: Registry, hash: Hash, x: Block, y: Block) {
    && x.height > 0 && x.hash != "" && y.hash != ""
    && (forall a | a in r.validators :: a != "" && r.validators[a].key != "")
    && (forall a: Addr, h: nat, p: string, q: string :: hash(a, h, p, q) != "")
  }

  ghost predicate CaughtBy(r: Registry, verify: Vote -> bool, hash: Hash, a: Vote, b: Vote) {
    BuildEvidence(r, verify, hash, a, b).Some? && ValidEvidence(r, verify, hash, BuildEvidence(r, verify, hash, a, b).value)
  }

  /** Any two accepted votes of one validator for different blocks at one height are evidence. */
  lemma ConflictIsEvidence(r: Registry, verify: Vote -> bool, hash: Hash, x: Block, y: Block, a: Vote, b: Vote)
    requires Named(r, hash, x, y) && x.height == y.height && x.hash != y.hash
    requires Accepts(r, verify, x, a) && Accepts(r, verify, y, b) && a.validator == b.validator
    ensures CaughtBy(r, verify, hash, a, b)
  {
    var e := BuildEvidence(r, verify, hash, a, b);
    assert e.Some?;
    assert VoteOf(e.value, e.value.firstHash, e.value.firstSignature) == a;
    assert VoteOf(e.value, e.value.secondHash, e.value.secondSignature) == b;
  }

  /** Accountable safety: if two different blocks at one height are both final, validators holding
      more than a third of the total power signed both, and each of them is caught by a pair of
      votes taken from the two certificates. */
  lemma AccountableSafety(r: Registry, verify: Vote -> bool, hash: Hash, x: Block, y: Block, vx: seq<Vote>, vy: seq<Vote>)
    requires PowerFits(r) && Named(r, hash, x, y)
    requires x.height == y.height && x.hash != y.hash
    requires Finalized(r, verify, x, vx) && Finalized(r, verify, y, vy)
    ensures var both := Signers(r, verify, x, vx) * Signers(r, verify, y, vy);
            && 3 * PowerOf(Members(r), both) > Sum(Members(r), PowerAt)
            && forall c | c in both :: exists a, b ::
                 a in vx && b in vy && a.validator == c == b.validator && CaughtBy(r, verify, hash, a, b)
  {
    var sx, sy := Signers(r, verify, x, vx), Signers(r, verify, y, vy);
    Overlap(Members(r), sx, sy);
    PartOfTotal(Members(r), sx);
    forall c | c in sx * sy
      ensures exists a, b :: a in vx && b in vy && a.validator == c == b.validator && CaughtBy(r, verify, hash, a, b)
    {
      var a :| a in vx && Accepts(r, verify, x, a) && a.validator == c;
      var b :| b in vy && Accepts(r, verify, y, b) && b.validator == c;
      ConflictIsEvidence(r, verify, hash, x, y, a, b);
    }
  }
}
