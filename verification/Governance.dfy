/** Governance proposals: voting, automatic execution and rejection, manual execution, expiry.
    Signatures, chain ids and clock skew are one boolean; the effect of an executed action is not
    part of this model, so operators and threshold rules may change arbitrarily between steps. */
module Governance {
  import opened Numbers

  const TTL_SECONDS: int := 7 * 24 * 60 * 60

  type Id = string

  datatype Status = Pending | Executed | Rejected | Expired
  datatype Vote = Vote(voter: Addr, approve: bool)
  datatype Proposal = Proposal(status: Status, snapshot: seq<Addr>, created: int, privileged: bool)

  /** Approval fractions for data moderation and for privileged (operator, configuration) actions. */
  datatype Rules = Rules(dataNum: nat, dataDen: int, privilegedNum: nat, privilegedDen: int)

  datatype State = State(proposals: map<Id, Proposal>, votes: map<Id, seq<Vote>>, enabled: set<Addr>,
                         nonces: map<Addr, nat>, rules: Rules)

  function VotesOf(st: State, id: Id): seq<Vote> { if id in st.votes then st.votes[id] else [] }
  function NonceOf(st: State, a: Addr): nat { if a in st.nonces then st.nonces[a] else 0 }

  // ---------------------------------------------------------------- tally and threshold

  /** Who counts: the operators enabled when the proposal was made, or the current ones without a snapshot. */
  function Electorate(st: State, p: Proposal): set<Addr> {
    if p.snapshot != [] then set a | a in p.snapshot else st.enabled
  }

  function TotalEnabled(st: State, p: Proposal): nat { if p.snapshot != [] then |p.snapshot| else |st.enabled| }

  function Tally(members: set<Addr>, votes: seq<Vote>, approve: bool): nat {
    if votes == [] then 0
    else
      var v := votes[|votes| - 1];
      Tally(members, votes[..|votes| - 1], approve) + (if v.voter in members && v.approve == approve then 1 else 0)
  }

  function Threshold(n: nat, num: nat, den: int): int {
    if n == 0 then 0 else if den <= 0 then n else (n * num + den - 1) / den
  }

  function ThresholdFor(st: State, p: Proposal): int {
    if p.privileged then Threshold(TotalEnabled(st, p), st.rules.privilegedNum, st.rules.privilegedDen)
    else Threshold(TotalEnabled(st, p), st.rules.dataNum, st.rules.dataDen)
  }

  /** The threshold is the ceiling of n * num / den. */
  lemma ThresholdIsCeiling(n: nat, num: nat, den: int, k: nat)
    requires n > 0 && den > 0
    ensures k >= Threshold(n, num, den) <==> k * den >= n * num
  {
    var x := n * num;
    assert x >= 0;
    if k * den >= x {
      FloorBelowStrict(x + den - 1, den, k);
    } else {
      assert (k + 1) * den == k * den + den;
      FloorAbove(x + den - 1, den, k + 1);
    }
  }

  lemma FloorBelowStrict(x: nat, d: nat, q: nat)
    requires 0 < d && x < q * d + d
    ensures x / d <= q
  {
    var f := x / d;
    DivisionLaw(x, d);
    if f >= q + 1 { MulMono(d, q + 1, f); }
  }

  function Approvers(members: set<Addr>, votes: seq<Vote>): set<Addr> {
    set v | v in votes && v.voter in members && v.approve :: v.voter
  }

  function Voters(votes: seq<Vote>): set<Addr> { set v | v in votes :: v.voter }

  predicate OneVoteEach(votes: seq<Vote>) { forall i, j | 0 <= i < j < |votes| :: votes[i].voter != votes[j].voter }

  /** With one vote each, the approval count is the number of distinct approving members. */
  lemma {:induction false} TallyCountsApprovers(members: set<Addr>, votes: seq<Vote>)
    requires OneVoteEach(votes)
    ensures Tally(members, votes, true) == |Approvers(members, votes)|
  {
    if votes != [] {
      var rest, v := votes[..|votes| - 1], votes[|votes| - 1];
      TallyCountsApprovers(members, rest);
      assert votes == rest + [v];
      if v.voter in members && v.approve {
        assert v.voter !in Approvers(members, rest);
        assert Approvers(members, votes) == Approvers(members, rest) + {v.voter};
      } else {
        assert Approvers(members, votes) == Approvers(members, rest);
      }
    }
  }

  lemma PartSize(members: set<Addr>, s: set<Addr>)
    ensures |members * s| <= |members|
  {
    assert members == members * s + (members - s);
  }

  lemma OneMoreVoter(members: set<Addr>, rest: seq<Vote>, v: Vote)
    requires OneVoteEach(rest + [v])
    ensures |members * Voters(rest + [v])| == |members * Voters(rest)| + (if v.voter in members then 1 else 0)
  {
    assert forall i | 0 <= i < |rest| :: (rest + [v])[i] == rest[i] && (rest + [v])[|rest|] == v;
    assert v.voter !in Voters(rest);
    assert Voters(rest + [v]) == Voters(rest) + {v.voter};
    if v.voter in members {
      assert members * Voters(rest + [v]) == members * Voters(rest) + {v.voter};
    } else {
      assert members * Voters(rest + [v]) == members * Voters(rest);
    }
  }

  /** Members who voted are at most all members. */
  lemma {:induction false} TallyFits(members: set<Addr>, votes: seq<Vote>)
    requires OneVoteEach(votes)
    ensures Tally(members, votes, true) + Tally(members, votes, false) == |members * Voters(votes)| <= |members|
  {
    if votes == [] {
      assert members * Voters(votes) == {};
    } else {
      var rest, v := votes[..|votes| - 1], votes[|votes| - 1];
      TallyFits(members, rest);
      assert votes == rest + [v];
      OneMoreVoter(members, rest, v);
    }
    PartSize(members, Voters(votes));
  }

  lemma {:induction false} TallySplits(members: set<Addr>, s: seq<Vote>, t: seq<Vote>, approve: bool)
    ensures Tally(members, s + t, approve) == Tally(members, s, approve) + Tally(members, t, approve)
  {
    if t == [] {
      assert s + t == s;
    } else {
      TallySplits(members, s, t[..|t| - 1], approve);
      assert (s + t)[..|s + t| - 1] == s + t[..|t| - 1];
    }
  }

  /** Whatever votes are still to come, one each, approvals cannot exceed those in hand plus the
      members that have not voted. */
  lemma NoFurtherVotesReach(members: set<Addr>, votes: seq<Vote>, more: seq<Vote>)
    requires OneVoteEach(votes + more)
    ensures Tally(members, votes + more, true) <= |members| - Tally(members, votes, false)
  {
    TallyFits(members, votes + more);
    TallySplits(members, votes, more, true);
    TallySplits(members, votes, more, false);
  }

  // ---------------------------------------------------------------- the steps

  function SetStatus(st: State, id: Id, s: Status): State
    requires id in st.proposals
  {
    st.(proposals := st.proposals[id := st.proposals[id].(status := s)])
  }

  datatype Ballot = Ballot(id: Id, voter: Addr, approve: bool, nonce: nat, verified: bool, hasKey: bool)

  predicate Stale(st: State, id: Id, now: int)
    requires id in st.proposals
  {
    st.proposals[id].created + TTL_SECONDS < now
  }

  predicate IsPending(st: State, id: Id) { id in st.proposals && st.proposals[id].status == Pending }

  predicate CanCast(st: State, b: Ballot, now: int) {
    && b.voter != "" && IsPending(st, b.id) && !Stale(st, b.id, now)
    && b.voter in st.enabled && b.hasKey && b.verified && b.nonce == NonceOf(st, b.voter)
    && forall i | 0 <= i < |VotesOf(st, b.id)| :: VotesOf(st, b.id)[i].voter != b.voter
  }

  /** The outcome of a tally: executed at the threshold, rejected once it is out of reach. */
  function Outcome(st: State, p: Proposal, votes: seq<Vote>): Status {
    var members := Electorate(st, p);
    var approve, reject := Tally(members, votes, true), Tally(members, votes, false);
    var remaining := TotalEnabled(st, p) - approve - reject;
    if approve >= ThresholdFor(st, p) then Executed
    else if approve + remaining < ThresholdFor(st, p) then Rejected
    else Pending
  }

  /** A vote that passed every check: recorded, counted, and acted upon. */
  function Accepted(st: State, b: Ballot): State
    requires b.id in st.proposals
  {
    var votes := VotesOf(st, b.id) + [Vote(b.voter, b.approve)];
    var st1 := st.(votes := st.votes[b.id := votes], nonces := st.nonces[b.voter := b.nonce + 1]);
    SetStatus(st1, b.id, Outcome(st1, st.proposals[b.id], votes))
  }

  /** `CastGovernanceVote` */
  function Cast(st: State, b: Ballot, now: int): State {
    if b.voter == "" || !IsPending(st, b.id) then st
    else if Stale(st, b.id, now) then SetStatus(st, b.id, Expired)
    else if !CanCast(st, b, now) then st
    else Accepted(st, b)
  }

  /** `ExecuteGovernanceProposal`. The status changes before the action is carried out; when the
      action fails (`handled` is false) it stays executed and the executor's nonce is not used up. */
  function Execute(st: State, id: Id, executor: Addr, nonce: nat, verified: bool, handled: bool, now: int): State {
    if executor == "" || executor !in st.enabled || !verified || nonce != NonceOf(st, executor) || !IsPending(st, id) then st
    else if Stale(st, id, now) then SetStatus(st, id, Expired)
    else if Tally(Electorate(st, st.proposals[id]), VotesOf(st, id), true) < ThresholdFor(st, st.proposals[id]) then st
    else if !handled then SetStatus(st, id, Executed)
    else SetStatus(st.(nonces := st.nonces[executor := nonce + 1]), id, Executed)
  }

  predicate Unreachable(st: State, id: Id)
    requires id in st.proposals
  {
    var p := st.proposals[id];
    var approve := Tally(Electorate(st, p), VotesOf(st, id), true);
    var reject := Tally(Electorate(st, p), VotesOf(st, id), false);
    approve + (TotalEnabled(st, p) - approve - reject) < ThresholdFor(st, p)
  }

  /** Both expiry passes over the pending proposals. */
  function ExpireOld(st: State, now: int): State {
    st.(proposals := map id | id in st.proposals ::
          if st.proposals[id].status == Pending && Stale(st, id, now) then st.proposals[id].(status := Expired) else st.proposals[id])
  }

  function ExpireUnreachable(st: State): State {
    st.(proposals := map id | id in st.proposals ::
          if st.proposals[id].status == Pending && Unreachable(st, id) then st.proposals[id].(status := Expired) else st.proposals[id])
  }

  datatype Op =
    | OpCast(ballot: Ballot, now: int)
    | OpExecute(id: Id, executor: Addr, nonce: nat, verified: bool, handled: bool, now: int)
    | OpExpireOld(now: int)
    | OpExpireUnreachable
    | OpChange(enabled: set<Addr>, rules: Rules)

  function Step(st: State, op: Op): State {
    match op
    case OpCast(b, now) => Cast(st, b, now)
    case OpExecute(id, x, n, v, h, now) => Execute(st, id, x, n, v, h, now)
    case OpExpireOld(now) => ExpireOld(st, now)
    case OpExpireUnreachable => ExpireUnreachable(st)
    case OpChange(e, r) => st.(enabled := e, rules := r)
  }

  function Run(st: State, ops: seq<Op>): State
    decreases |ops|
  {
    if ops == [] then st else Run(Step(st, ops[0]), ops[1..])
  }

  // ---------------------------------------------------------------- what every run keeps

  predicate Distinct(s: seq<Addr>) { forall i, j | 0 <= i < j < |s| :: s[i] != s[j] }

  /** Nobody votes twice, and snapshots list each operator once. */
  ghost predicate Inv(st: State) {
    && (forall id | id in st.votes :: OneVoteEach(st.votes[id]))
    && (forall id | id in st.proposals :: Distinct(st.proposals[id].snapshot))
  }

  /** From `st` to `end`, only a pending proposal's status may change, and only a pending one gains votes. */
  ghost predicate KeepsDecision(st: State, end: State, id: Id)
    requires id in st.proposals
  {
    && id in end.proposals
    && end.proposals[id].(status := Pending) == st.proposals[id].(status := Pending)
    && (st.proposals[id].status != Pending ==> end.proposals[id] == st.proposals[id] && VotesOf(end, id) == VotesOf(st, id))
  }

  lemma CastKeepsDecision(st: State, b: Ballot, now: int, id: Id)
    requires id in st.proposals
    ensures KeepsDecision(st, Cast(st, b, now), id)
  {
    if id != b.id { assert VotesOf(Cast(st, b, now), id) == VotesOf(st, id); }
  }

  lemma ExecuteKeepsDecision(st: State, j: Id, x: Addr, n: nat, v: bool, h: bool, now: int, id: Id)
    requires id in st.proposals
    ensures KeepsDecision(st, Execute(st, j, x, n, v, h, now), id)
  {
  }

  /** A proposal that has left pending keeps its status, its snapshot and its votes for good. */
  lemma StepKeepsDecision(st: State, op: Op, id: Id)
    requires id in st.proposals
    ensures KeepsDecision(st, Step(st, op), id)
  {
    match op
    case OpCast(b, now) => CastKeepsDecision(st, b, now, id);
    case OpExecute(j, x, n, v, h, now) => ExecuteKeepsDecision(st, j, x, n, v, h, now, id);
    case _ =>
  }

  lemma CastKeepsVotes(st: State, b: Ballot, now: int, id: Id)
    requires OneVoteEach(VotesOf(st, id))
    ensures OneVoteEach(VotesOf(Cast(st, b, now), id))
  {
  }

  lemma StepKeepsVotes(st: State, op: Op, id: Id)
    requires OneVoteEach(VotesOf(st, id))
    ensures OneVoteEach(VotesOf(Step(st, op), id))
  {
    if op.OpCast? {
      CastKeepsVotes(st, op.ballot, op.now, id);
    } else {
      assert Step(st, op).votes == st.votes;
    }
  }

  /** Every step keeps one vote each and the snapshots. */
  lemma StepKeepsInv(st: State, op: Op)
    requires Inv(st)
    ensures Inv(Step(st, op))
  {
    var end := Step(st, op);
    assert end.proposals.Keys == st.proposals.Keys;
    forall id | id in end.votes ensures OneVoteEach(end.votes[id]) {
      StepKeepsVotes(st, op, id);
    }
    forall id | id in end.proposals ensures Distinct(end.proposals[id].snapshot) {
      StepKeepsDecision(st, op, id);
    }
  }

  lemma {:induction false} SnapshotSize(snapshot: seq<Addr>)
    requires Distinct(snapshot)
    ensures |set a | a in snapshot| == |snapshot|
    decreases |snapshot|
  {
    if snapshot == [] {
      assert (set a | a in snapshot) == {};
    } else {
      var rest, last := snapshot[..|snapshot| - 1], snapshot[|snapshot| - 1];
      SnapshotSize(rest);
      assert snapshot == rest + [last];
      assert (set a | a in snapshot) == (set a | a in rest) + {last};
      assert last !in rest;
    }
  }

  /** The operators approving a proposal by votes of `votes`, each counted once, out of those entitled in `st`. */
  ghost function ApprovingOperators(st: State, id: Id, votes: seq<Vote>): set<Addr>
    requires id in st.proposals
  {
    Approvers(Electorate(st, st.proposals[id]), votes)
  }

  /** A proposal becomes executed only with at least the threshold of distinct approving operators:
      of its snapshot or, without one, of those enabled at that moment. */
  lemma ExecutedHasApproval(st: State, op: Op, id: Id)
    requires Inv(st) && IsPending(st, id) && id in Step(st, op).proposals && Step(st, op).proposals[id].status == Executed
    ensures |ApprovingOperators(st, id, VotesOf(Step(st, op), id))| >= ThresholdFor(st, st.proposals[id])
    ensures ApprovingOperators(st, id, VotesOf(Step(st, op), id)) <= Electorate(st, st.proposals[id])
  {
    StepKeepsInv(st, op);
    ExecutedMeetsThreshold(st, op, id);
    TallyCountsApprovers(Electorate(st, st.proposals[id]), VotesOf(Step(st, op), id));
  }

  lemma ExecutedMeetsThreshold(st: State, op: Op, id: Id)
    requires IsPending(st, id) && id in Step(st, op).proposals && Step(st, op).proposals[id].status == Executed
    ensures Tally(Electorate(st, st.proposals[id]), VotesOf(Step(st, op), id), true) >= ThresholdFor(st, st.proposals[id])
  {
    match op
    case OpCast(b, now) => CastMeetsThreshold(st, b, now, id);
    case OpExecute(j, x, n, v, h, now) => ExecuteMeetsThreshold(st, j, x, n, v, h, now, id);
    case _ =>
  }

  lemma CastMeetsThreshold(st: State, b: Ballot, now: int, id: Id)
    requires IsPending(st, id) && id in Cast(st, b, now).proposals && Cast(st, b, now).proposals[id].status == Executed
    ensures Tally(Electorate(st, st.proposals[id]), VotesOf(Cast(st, b, now), id), true) >= ThresholdFor(st, st.proposals[id])
  {
    assert id == b.id;
  }

  lemma ExecuteMeetsThreshold(st: State, j: Id, x: Addr, n: nat, v: bool, h: bool, now: int, id: Id)
    requires IsPending(st, id) && id in Execute(st, j, x, n, v, h, now).proposals
    requires Execute(st, j, x, n, v, h, now).proposals[id].status == Executed
    ensures Tally(Electorate(st, st.proposals[id]), VotesOf(Execute(st, j, x, n, v, h, now), id), true) >= ThresholdFor(st, st.proposals[id])
  {
    assert id == j;
  }

  /** In every run a proposal leaves pending at most once: once decided, its status, snapshot and votes
      never change again. */
  lemma {:induction false} DecisionIsFinal(st: State, ops: seq<Op>, id: Id)
    requires id in st.proposals && st.proposals[id].status != Pending
    ensures id in Run(st, ops).proposals && Run(st, ops).proposals[id] == st.proposals[id]
    ensures VotesOf(Run(st, ops), id) == VotesOf(st, id)
    decreases |ops|
  {
    if ops != [] {
      StepKeepsDecision(st, ops[0], id);
      DecisionIsFinal(Step(st, ops[0]), ops[1..], id);
    }
  }

  /** In every run, a proposal that ends up executed was executed at some step whose threshold was met
      by distinct operators entitled at that step, whose approvals are still all recorded at the end. */
  lemma {:induction false} ExecutedRunHadApproval(st: State, ops: seq<Op>, id: Id) returns (k: nat)
    requires Inv(st) && IsPending(st, id)
    requires id in Run(st, ops).proposals && Run(st, ops).proposals[id].status == Executed
    ensures k < |ops| && IsPending(Run(st, ops[..k]), id)
    ensures var at := Run(st, ops[..k]);
            |ApprovingOperators(at, id, VotesOf(Run(st, ops), id))| >= ThresholdFor(at, at.proposals[id])
    decreases |ops|
  {
    var st1 := Step(st, ops[0]);
    StepKeepsDecision(st, ops[0], id);
    StepKeepsInv(st, ops[0]);
    if st1.proposals[id].status == Pending {
      var j := ExecutedRunHadApproval(st1, ops[1..], id);
      k := j + 1;
      assert ops[..k][0] == ops[0] && ops[..k][1..] == ops[1..][..j];
    } else {
      DecisionIsFinal(st1, ops[1..], id);
      ExecutedHasApproval(st, ops[0], id);
      k := 0;
      assert ops[..0] == [];
    }
  }

  /** Votes still to come: by operators that have not voted yet, one each. */
  ghost predicate Extends(st: State, id: Id, more: seq<Vote>) { OneVoteEach(VotesOf(st, id) + more) }

  lemma ElectorateSize(st: State, p: Proposal)
    requires Distinct(p.snapshot)
    ensures |Electorate(st, p)| == TotalEnabled(st, p)
  {
    SnapshotSize(p.snapshot);
  }

  /** A proposal is rejected by a vote, or expired as unreachable, only when no further votes by those
      entitled could bring it to the threshold. */
  lemma RejectedIsHopeless(st: State, op: Op, id: Id, more: seq<Vote>)
    requires Inv(st) && IsPending(st, id) && id in Step(st, op).proposals
    requires (op.OpCast? && Step(st, op).proposals[id].status == Rejected)
             || (op.OpExpireUnreachable? && Step(st, op).proposals[id].status == Expired)
    requires Extends(Step(st, op), id, more)
    ensures Tally(Electorate(st, st.proposals[id]), VotesOf(Step(st, op), id) + more, true) < ThresholdFor(st, st.proposals[id])
  {
    var p := st.proposals[id];
    ElectorateSize(st, p);
    RejectedIsShort(st, op, id);
    NoFurtherVotesReach(Electorate(st, p), VotesOf(Step(st, op), id), more);
  }

  /** No votes still to come, one each, bring the proposal to the threshold in force in `at`. */
  ghost predicate Hopeless(at: State, id: Id, votes: seq<Vote>) {
    id in at.proposals &&
    forall more: seq<Vote> | OneVoteEach(votes + more) ::
      Tally(Electorate(at, at.proposals[id]), votes + more, true) < ThresholdFor(at, at.proposals[id])
  }

  lemma RejectionIsHopeless(st: State, op: Op, id: Id)
    requires Inv(st) && IsPending(st, id) && id in Step(st, op).proposals && Step(st, op).proposals[id].status == Rejected
    ensures Hopeless(st, id, VotesOf(Step(st, op), id))
  {
    OnlyVotesReject(st, op, id);
    var votes := VotesOf(Step(st, op), id);
    forall more: seq<Vote> | OneVoteEach(votes + more)
      ensures Tally(Electorate(st, st.proposals[id]), votes + more, true) < ThresholdFor(st, st.proposals[id])
    {
      RejectedIsHopeless(st, op, id, more);
    }
  }

  lemma OnlyVotesReject(st: State, op: Op, id: Id)
    requires IsPending(st, id) && id in Step(st, op).proposals && Step(st, op).proposals[id].status == Rejected
    ensures op.OpCast?
  {
  }

  /** In every run, a proposal that ends up rejected was rejected at some step at which no votes still
      to come could have brought it to the threshold. */
  lemma {:induction false} RejectedRunWasHopeless(st: State, ops: seq<Op>, id: Id) returns (k: nat)
    requires Inv(st) && IsPending(st, id)
    requires id in Run(st, ops).proposals && Run(st, ops).proposals[id].status == Rejected
    ensures k < |ops| && IsPending(Run(st, ops[..k]), id)
    ensures Hopeless(Run(st, ops[..k]), id, VotesOf(Run(st, ops), id))
    decreases |ops|
  {
    var st1 := Step(st, ops[0]);
    StepKeepsDecision(st, ops[0], id);
    StepKeepsInv(st, ops[0]);
    if st1.proposals[id].status == Pending {
      var j := RejectedRunWasHopeless(st1, ops[1..], id);
      k := j + 1;
      assert ops[..k][0] == ops[0] && ops[..k][1..] == ops[1..][..j];
    } else {
      DecisionIsFinal(st1, ops[1..], id);
      RejectionIsHopeless(st, ops[0], id);
      k := 0;
      assert ops[..0] == [];
    }
  }

  /** The guard of both rejections: members minus rejections fall short of the threshold. */
  lemma RejectedIsShort(st: State, op: Op, id: Id)
    requires IsPending(st, id) && id in Step(st, op).proposals
    requires (op.OpCast? && Step(st, op).proposals[id].status == Rejected)
             || (op.OpExpireUnreachable? && Step(st, op).proposals[id].status == Expired)
    ensures var p := st.proposals[id];
            TotalEnabled(st, p) - Tally(Electorate(st, p), VotesOf(Step(st, op), id), false) < ThresholdFor(st, p)
  {
    if op.OpCast? { CastIsShort(st, op.ballot, op.now, id); } else { ExpiryIsShort(st, id); }
  }

  lemma CastIsShort(st: State, b: Ballot, now: int, id: Id)
    requires IsPending(st, id) && id in Cast(st, b, now).proposals && Cast(st, b, now).proposals[id].status == Rejected
    ensures var p := st.proposals[id];
            TotalEnabled(st, p) - Tally(Electorate(st, p), VotesOf(Cast(st, b, now), id), false) < ThresholdFor(st, p)
  {
    assert id == b.id && CanCast(st, b, now);
    OutcomeIsShort(Cast(st, b, now), st.proposals[id], VotesOf(Cast(st, b, now), id));
  }

  lemma OutcomeIsShort(st: State, p: Proposal, votes: seq<Vote>)
    ensures Outcome(st, p, votes) == Rejected ==> TotalEnabled(st, p) - Tally(Electorate(st, p), votes, false) < ThresholdFor(st, p)
  {
  }

  lemma ExpiryIsShort(st: State, id: Id)
    requires IsPending(st, id) && ExpireUnreachable(st).proposals[id].status == Expired
    ensures var p := st.proposals[id];
            TotalEnabled(st, p) - Tally(Electorate(st, p), VotesOf(st, id), false) < ThresholdFor(st, p)
  {
  }

  // ---------------------------------------------------------------- what it takes, in votes and dates

  /** `n` operators are asked about a proposal, the members of its snapshot or else the enabled ones, and
      the fraction `num / den` of them must approve: one rule for privileged actions, one for data. */
  ghost predicate Asked(st: State, p: Proposal, members: set<Addr>, n: nat, num: nat, den: int) {
    && (if p.snapshot == [] then members == st.enabled && n == |st.enabled|
        else members == (set a | a in p.snapshot) && n == |p.snapshot|)
    && (if p.privileged then num == st.rules.privilegedNum && den == st.rules.privilegedDen
        else num == st.rules.dataNum && den == st.rules.dataDen)
  }

  /** `k` of `n` are enough; a rule without a denominator asks for all of them. */
  ghost predicate Enough(k: int, n: nat, num: nat, den: int) { if den > 0 then k * den >= n * num else k >= n }

  lemma ThresholdMeansEnough(st: State, p: Proposal, members: set<Addr>, n: nat, num: nat, den: int, k: nat)
    requires Asked(st, p, members, n, num, den) && n > 0
    ensures k >= ThresholdFor(st, p) <==> Enough(k, n, num, den)
    ensures members == Electorate(st, p) && n == TotalEnabled(st, p)
  {
    if den > 0 { ThresholdIsCeiling(n, num, den, k); }
  }

  /** A vote is accepted exactly from an enabled operator with a key and a valid signature, with its next
      nonce, once, while the proposal is pending and at most seven days old. */
  ghost predicate Acceptable(st: State, b: Ballot, now: int) {
    && b.voter != "" && b.id in st.proposals && st.proposals[b.id].status == Pending
    && now <= st.proposals[b.id].created + 604_800
    && b.voter in st.enabled && b.hasKey && b.verified && b.nonce == NonceOf(st, b.voter)
    && forall v | v in VotesOf(st, b.id) :: v.voter != b.voter
  }

  lemma AcceptableCanCast(st: State, b: Ballot, now: int)
    ensures CanCast(st, b, now) <==> Acceptable(st, b, now)
  {
    if CanCast(st, b, now) {
      forall v | v in VotesOf(st, b.id) ensures v.voter != b.voter {
        var i :| 0 <= i < |VotesOf(st, b.id)| && VotesOf(st, b.id)[i] == v;
      }
    }
  }

  lemma OutcomeIs(st: State, p: Proposal, votes: seq<Vote>, members: set<Addr>, n: nat, num: nat, den: int)
    requires Asked(st, p, members, n, num, den) && n > 0 && Distinct(p.snapshot) && OneVoteEach(votes)
    ensures var yes, no := Tally(members, votes, true), Tally(members, votes, false);
            && no <= n
            && Outcome(st, p, votes) == if Enough(yes, n, num, den) then Executed
                                        else if !Enough(n - no, n, num, den) then Rejected else Pending
  {
    TallyFits(members, votes);
    AskedSize(st, p, members, n, num, den);
    ThresholdMeansEnough(st, p, members, n, num, den, Tally(members, votes, true));
    ThresholdMeansEnough(st, p, members, n, num, den, n - Tally(members, votes, false));
  }

  /** What an accepted vote decides: the proposal is executed once enough approve, rejected once even all
      who have not rejected it would not be enough, and stays pending otherwise. */
  lemma VoteDecides(st: State, b: Ballot, now: int, members: set<Addr>, n: nat, num: nat, den: int)
    requires Inv(st) && Acceptable(st, b, now) && Asked(st, st.proposals[b.id], members, n, num, den)
    ensures var votes, end := VotesOf(st, b.id) + [Vote(b.voter, b.approve)], Step(st, OpCast(b, now));
            var yes, no := Tally(members, votes, true), Tally(members, votes, false);
            && b.id in end.proposals && VotesOf(end, b.id) == votes && NonceOf(end, b.voter) == b.nonce + 1
            && end.proposals[b.id].status == if Enough(yes, n, num, den) then Executed
                                             else if !Enough(n - no, n, num, den) then Rejected else Pending
  {
    var p, votes := st.proposals[b.id], VotesOf(st, b.id) + [Vote(b.voter, b.approve)];
    AcceptableCanCast(st, b, now);
    if p.snapshot == [] { assert b.voter in st.enabled; }
    var st1 := st.(votes := st.votes[b.id := votes], nonces := st.nonces[b.voter := b.nonce + 1]);
    OutcomeIs(st1, p, votes, members, n, num, den);
    assert Step(st, OpCast(b, now)) == SetStatus(st1, b.id, Outcome(st1, p, votes));
  }

  lemma AskedSize(st: State, p: Proposal, members: set<Addr>, n: nat, num: nat, den: int)
    requires Asked(st, p, members, n, num, den) && Distinct(p.snapshot)
    ensures |members| == n
  {
    if p.snapshot != [] { SnapshotSize(p.snapshot); }
  }

  /** Any other vote changes nothing, except that one on a pending proposal past its seven days ends it. */
  lemma OtherVotesAreRefused(st: State, b: Ballot, now: int)
    requires !Acceptable(st, b, now)
    ensures var end := Step(st, OpCast(b, now));
            if b.voter != "" && b.id in st.proposals && st.proposals[b.id].status == Pending && now > st.proposals[b.id].created + 604_800
            then end == st.(proposals := st.proposals[b.id := st.proposals[b.id].(status := Expired)]) else end == st
  {
    AcceptableCanCast(st, b, now);
  }

  /** Manual execution takes an enabled operator with a valid signature and its next nonce, and enough
      approvals of a pending proposal at most seven days old; one past them is ended. */
  lemma ExecutionTakesEnough(st: State, id: Id, x: Addr, nonce: nat, verified: bool, handled: bool, now: int,
                             members: set<Addr>, n: nat, num: nat, den: int)
    requires id in st.proposals && Asked(st, st.proposals[id], members, n, num, den) && n > 0
    ensures var p, end := st.proposals[id], Step(st, OpExecute(id, x, nonce, verified, handled, now));
            var asked := x != "" && x in st.enabled && verified && nonce == NonceOf(st, x) && p.status == Pending;
            var yes := Tally(members, VotesOf(st, id), true);
            && id in end.proposals
            && end.proposals[id].status == (if asked && now > p.created + 604_800 then Expired
                                            else if asked && Enough(yes, n, num, den) then Executed else p.status)
            && (asked && now <= p.created + 604_800 && Enough(yes, n, num, den) && handled ==> NonceOf(end, x) == nonce + 1)
  {
    ThresholdMeansEnough(st, st.proposals[id], members, n, num, den, Tally(members, VotesOf(st, id), true));
  }

  /** One expiry pass ends the pending proposals that are more than seven days old. */
  lemma AgedExpire(st: State, id: Id, now: int)
    requires id in st.proposals
    ensures var p, end := st.proposals[id], Step(st, OpExpireOld(now));
            && id in end.proposals
            && end.proposals[id] == if p.status == Pending && now > p.created + 604_800 then p.(status := Expired) else p
  {
  }

  /** The other ends those that even all who have not rejected them could not carry. */
  lemma HopelessExpire(st: State, id: Id, members: set<Addr>, n: nat, num: nat, den: int)
    requires Inv(st) && id in st.proposals && Asked(st, st.proposals[id], members, n, num, den) && n > 0
    ensures var p, end, no := st.proposals[id], Step(st, OpExpireUnreachable), Tally(members, VotesOf(st, id), false);
            && id in end.proposals
            && end.proposals[id] == if p.status == Pending && !Enough(n - no, n, num, den) then p.(status := Expired) else p
  {
    UnreachableIs(st, id, members, n, num, den);
  }

  lemma UnreachableIs(st: State, id: Id, members: set<Addr>, n: nat, num: nat, den: int)
    requires id in st.proposals && Asked(st, st.proposals[id], members, n, num, den) && n > 0
    requires Distinct(st.proposals[id].snapshot) && OneVoteEach(VotesOf(st, id))
    ensures Unreachable(st, id) <==> !Enough(n - Tally(members, VotesOf(st, id), false), n, num, den)
  {
    OutcomeIs(st, st.proposals[id], VotesOf(st, id), members, n, num, den);
    ThresholdMeansEnough(st, st.proposals[id], members, n, num, den, n - Tally(members, VotesOf(st, id), false));
  }

  // ---------------------------------------------------------------- the store

  class GovernanceStore {
    var proposals: map<Id, Proposal>
    var votes: map<Id, seq<Vote>>
    var enabled: set<Addr>
    var nonces: map<Addr, nat>
    var rules: Rules

    function View(): State
      reads this
    {
      State(proposals, votes, enabled, nonces, rules)
    }

    /** Counts the votes of one proposal by walking the list once. */
    method CountVotes(p: Proposal, ballots: seq<Vote>) returns (approve: nat, reject: nat)
      ensures approve == Tally(Electorate(View(), p), ballots, true)
      ensures reject == Tally(Electorate(View(), p), ballots, false)
    {
      approve, reject := 0, 0;
      var valid := Electorate(View(), p);
      var i := 0;
      while i < |ballots|
        invariant 0 <= i <= |ballots|
        invariant approve == Tally(valid, ballots[..i], true) && reject == Tally(valid, ballots[..i], false)
      {
        assert ballots[..i + 1][..i] == ballots[..i];
        if ballots[i].voter in valid {
          if ballots[i].approve { approve := approve + 1; } else { reject := reject + 1; }
        }
        i := i + 1;
      }
      assert ballots[..i] == ballots;
    }

    method HasVoted(ballots: seq<Vote>, voter: Addr) returns (found: bool)
      ensures found <==> exists i :: 0 <= i < |ballots| && ballots[i].voter == voter
    {
      var i := 0;
      while i < |ballots|
        invariant 0 <= i <= |ballots| && forall k | 0 <= k < i :: ballots[k].voter != voter
      {
        if ballots[i].voter == voter { return true; }
        i := i + 1;
      }
      return false;
    }

    method CastVote(b: Ballot, now: int)
      modifies this
      ensures View() == Cast(old(View()), b, now)
    {
      if b.voter == "" || b.id !in proposals || proposals[b.id].status != Pending { return; }
      var p := proposals[b.id];
      if p.created + TTL_SECONDS < now {
        proposals := proposals[b.id := p.(status := Expired)];
        return;
      }
      if b.voter !in enabled || !b.hasKey || !b.verified { return; }
      var expected := if b.voter in nonces then nonces[b.voter] else 0;
      if b.nonce != expected { return; }
      var ballots := if b.id in votes then votes[b.id] else [];
      var voted := HasVoted(ballots, b.voter);
      if voted { return; }
      AcceptVote(b);
    }

    /** Records a vote that passed every check and decides the proposal if it can be decided. */
    method AcceptVote(b: Ballot)
      requires b.id in proposals
      modifies this
      ensures View() == Accepted(old(View()), b)
    {
      var p := proposals[b.id];
      var ballots := (if b.id in votes then votes[b.id] else []) + [Vote(b.voter, b.approve)];
      votes := votes[b.id := ballots];
      nonces := nonces[b.voter := b.nonce + 1];
      var status := Decide(p, ballots);
      proposals := proposals[b.id := p.(status := status)];
    }

    /** Executes at the threshold, rejects once it is out of reach, and otherwise leaves the proposal pending. */
    method Decide(p: Proposal, ballots: seq<Vote>) returns (status: Status)
      ensures status == Outcome(View(), p, ballots)
    {
      var approve, reject := CountVotes(p, ballots);
      var total := TotalEnabled(View(), p);
      var threshold := ThresholdFor(View(), p);
      if approve >= threshold { return Executed; }
      if approve + (total - approve - reject) < threshold { return Rejected; }
      return Pending;
    }

    method ExecuteProposal(id: Id, executor: Addr, nonce: nat, verified: bool, handled: bool, now: int) returns (ok: bool)
      modifies this
      ensures View() == Execute(old(View()), id, executor, nonce, verified, handled, now)
      ensures ok ==> id in proposals && proposals[id].status == Executed
    {
      if executor == "" || executor !in enabled || !verified { return false; }
      var expected := if executor in nonces then nonces[executor] else 0;
      if nonce != expected || id !in proposals || proposals[id].status != Pending { return false; }
      var p := proposals[id];
      if p.created + TTL_SECONDS < now {
        proposals := proposals[id := p.(status := Expired)];
        return false;
      }
      var approve, _ := CountVotes(p, if id in votes then votes[id] else []);
      if approve < ThresholdFor(View(), p) { return false; }
      proposals := proposals[id := p.(status := Executed)];
      if !handled { return false; }
      nonces := nonces[executor := expected + 1];
      return true;
    }

    /** Marks old pending proposals, in whatever order the map yields them. */
    method ExpireOldProposals(now: int)
      modifies this`proposals
      ensures View() == ExpireOld(old(View()), now)
    {
      ghost var start := View();
      var todo := proposals.Keys;
      while todo != {}
        invariant todo <= proposals.Keys == start.proposals.Keys
        invariant forall id | id in todo :: proposals[id] == start.proposals[id]
        invariant forall id | id in start.proposals.Keys - todo :: proposals[id] == ExpireOld(start, now).proposals[id]
      {
        var id :| id in todo;
        var p := proposals[id];
        if p.status == Pending && p.created + TTL_SECONDS < now {
          proposals := proposals[id := p.(status := Expired)];
        }
        todo := todo - {id};
      }
    }
  }
}
