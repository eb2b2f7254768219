/** Storage deals, their escrow records and permanent funds as values, and the time-proportional
    accrual of a finite deal. */
module Escrow {
  import opened Numbers

  datatype Status = Uploading | Finalized | Expired | Deleted

  /** A storage deal. */
  datatype Intent = Intent(
    user: Addr, locked: nat, paid: nat, refunded: nat, burned: nat, deferred: bool,
    duration: int, status: Status, active: bool, renewable: bool, autoRenew: bool, retain: bool,
    created: int, updated: int, expires: int, deadline: int)

  datatype Deal = Deal(locked: nat, paid: nat, refunded: nat, burned: nat, start: int, expires: int, accrued: nat)

  datatype Fund = Fund(balance: nat, contributed: nat, paid: nat, burned: nat, closed: bool, created: int)

  predicate Permanent(i: Intent) { i.duration <= 0 }

  function FirstNonZero(a: int, b: int): int { if a != 0 then a else b }

  function Used(i: Intent): nat { i.paid + i.refunded + i.burned }

  /** `remainingIntentEscrow`: the sum wraps at 64 bits. */
  function Remaining(i: Intent): nat {
    var used := Used(i) % TWO64;
    if used >= i.locked then 0 else i.locked - used
  }

  /** An intent whose spent parts fit inside what was locked. */
  ghost predicate Solvent(i: Intent) { Used(i) <= i.locked <= MAX_U64 }

  lemma SolventRemaining(i: Intent)
    requires Solvent(i)
    ensures Remaining(i) == i.locked - Used(i)
  {
  }

  /** `ensureDealEscrowForState`: the record a deal has after being brought up to date. */
  function Synced(i: Intent, prior: Option<Deal>): Deal {
    var e := if prior.Some? then prior.value else Deal(0, 0, 0, 0, 0, 0, 0);
    var s := e.(locked := i.locked, paid := i.paid, refunded := i.refunded, burned := i.burned);
    if i.status != Finalized then s
    else
      var start := if s.start == 0 then FirstNonZero(i.updated, i.created) else s.start;
      s.(start := start,
         expires := if i.expires > 0 then i.expires
                    else if i.duration > 0 && start > 0 then start + i.duration
                    else s.expires)
  }

  function StartOf(e: Deal, i: Intent): int { if e.start == 0 then FirstNonZero(i.updated, i.created) else e.start }

  function DurationOf(e: Deal, i: Intent): int {
    var start := StartOf(e, i);
    var expires := if e.expires == 0 then start + i.duration else e.expires;
    if expires > start then expires - start else i.duration
  }

  /** `finiteDealEscrowAccrued` */
  function Accrued(e: Deal, i: Intent, now: int): (r: nat) {
    if e.locked == 0 || i.duration <= 0 || now <= StartOf(e, i) then 0
    else if DurationOf(e, i) <= 0 || now - StartOf(e, i) >= DurationOf(e, i) then e.locked
    else MulDiv(e.locked, now - StartOf(e, i), DurationOf(e, i))
  }

  function Available(e: Deal, i: Intent, now: int): nat {
    if Accrued(e, i, now) <= e.paid then 0 else Accrued(e, i, now) - e.paid
  }

  /** What a finite spend takes, before the clamp on the account. */
  function Draw(e: Deal, i: Intent, requested: nat, now: int): nat {
    Min(Min(requested, Available(e, i, now)), Remaining(i))
  }

  // ---------------------------------------------------------------- time-proportional payout

  /** Accrual is the elapsed fraction of the locked fee, rounded down, and all of it from expiry on. */
  lemma AccrualIsProportional(e: Deal, i: Intent, now: int)
    requires i.duration > 0 && e.locked <= MAX_U64 && now > StartOf(e, i)
    ensures DurationOf(e, i) > 0
    ensures var t, d := now - StartOf(e, i), DurationOf(e, i);
            && Accrued(e, i, now) <= e.locked * t / d
            && (t < d ==> Accrued(e, i, now) == e.locked * t / d)
            && (t >= d ==> Accrued(e, i, now) == e.locked)
  {
    var t, d := now - StartOf(e, i), DurationOf(e, i);
    if t < d {
      DivBound(e.locked, t, d);
    } else {
      MulMono(e.locked, d, t);
      FloorAbove(e.locked * t, d, e.locked);
    }
  }

  /** The term of a deal in the fields of its record: it starts where the record says, or when the deal
      was last updated or created; it ends where the record says, or one duration after its start. */
  ghost predicate RunsOver(e: Deal, i: Intent, start: int, end: int) {
    && start == (if e.start != 0 then e.start else if i.updated != 0 then i.updated else i.created)
    && end == (if e.expires != 0 && e.expires > start then e.expires else start + i.duration)
  }

  /** Nothing has accrued at the start of the term, the elapsed fraction of the fee rounded down during
      it, and the whole fee from its end on. */
  lemma AccruesOverTerm(e: Deal, i: Intent, start: int, end: int, now: int)
    requires i.duration > 0 && e.locked <= MAX_U64 && RunsOver(e, i, start, end)
    ensures start < end
    ensures now <= start ==> Accrued(e, i, now) == 0
    ensures start < now < end ==> Accrued(e, i, now) == e.locked * (now - start) / (end - start)
    ensures now >= end ==> Accrued(e, i, now) == e.locked
  {
    assert start == StartOf(e, i) && end - start == DurationOf(e, i);
    if now > start { AccrualIsProportional(e, i, now); }
  }

  /** A record that carries its own schedule accrues over exactly that. */
  lemma RecordedTermAccrues(e: Deal, i: Intent, now: int)
    requires i.duration > 0 && e.locked <= MAX_U64 && e.start != 0 && e.expires != 0 && e.expires > e.start
    ensures now <= e.start ==> Accrued(e, i, now) == 0
    ensures e.start < now < e.expires ==> Accrued(e, i, now) == e.locked * (now - e.start) / (e.expires - e.start)
    ensures now >= e.expires ==> Accrued(e, i, now) == e.locked
  {
    AccruesOverTerm(e, i, e.start, e.expires, now);
  }

  lemma AccruedMonotone(e: Deal, i: Intent, s: int, t: int)
    requires s <= t && e.locked <= MAX_U64
    ensures Accrued(e, i, s) <= Accrued(e, i, t) <= e.locked
  {
    var start, d := StartOf(e, i), DurationOf(e, i);
    if e.locked != 0 && i.duration > 0 && s > start && s - start < d {
      DivBound(e.locked, s - start, d);
      if t - start < d {
        DivBound(e.locked, t - start, d);
        MulMono(e.locked, s - start, t - start);
        DivMono(e.locked * (s - start), e.locked * (t - start), d);
      }
    } else if e.locked != 0 && i.duration > 0 && t > start && t - start < d {
      DivBound(e.locked, t - start, d);
    }
  }

  datatype Request = Request(amount: nat, now: int)

  function Spent(i: Intent, amount: nat): Intent { i.(paid := SatAdd(i.paid, amount)) }

  /** One spend: the escrow record is first brought up to date. */
  function SpendOne(i: Intent, e: Deal, r: Request): (Intent, Deal) {
    var s := Synced(i, Some(e));
    var n := Spent(i, Draw(s, i, r.amount, r.now));
    (n, s.(paid := n.paid))
  }

  function SpendAll(i: Intent, e: Deal, requests: seq<Request>): (Intent, Deal)
    decreases |requests|
  {
    if requests == [] then (i, e)
    else
      var (n, d) := SpendOne(i, e, requests[0]);
      SpendAll(n, d, requests[1..])
  }

  /** Bringing the record up to date twice, or after a spend, keeps its schedule. */
  lemma SyncKeepsSchedule(i: Intent, e: Deal, amount: nat)
    requires i.status == Finalized
    ensures var s := Synced(i, Some(e));
            var t := Synced(Spent(i, amount), Some(s.(paid := Spent(i, amount).paid)));
            t == s.(paid := Spent(i, amount).paid)
  {
  }

  /** No sequence of spends made by time `t`, in any order, takes a finite deal beyond what has
      accrued at `t`, unless it was already beyond when the sequence began (which only a renewal
      can cause). */
  lemma {:induction false} PayoutIsTimeProportional(i: Intent, e: Deal, requests: seq<Request>, t: int)
    requires i.status == Finalized && Solvent(i)
    requires forall r | r in requests :: r.now <= t
    ensures var end := SpendAll(i, e, requests).0;
            && Solvent(end)
            && i.paid <= end.paid
            && (end.paid == i.paid || end.paid <= Accrued(Synced(i, Some(e)), i, t))
    decreases |requests|
  {
    if requests != [] {
      var (n, d) := SpendOne(i, e, requests[0]);
      OneSpend(i, e, requests[0], t);
      PayoutIsTimeProportional(n, d, requests[1..], t);
    }
  }

  /** One spend made by `t` stays solvent, pays within what accrued at `t`, and leaves that as it was. */
  lemma OneSpend(i: Intent, e: Deal, r: Request, t: int)
    requires Solvent(i) && r.now <= t && i.status == Finalized
    ensures var (n, d) := SpendOne(i, e, r);
            && Solvent(n) && n.status == Finalized && i.paid <= n.paid
            && (n.paid == i.paid || n.paid <= Accrued(Synced(i, Some(e)), i, t))
            && Accrued(Synced(n, Some(d)), n, t) == Accrued(Synced(i, Some(e)), i, t)
  {
    SolventRemaining(i);
    AccruedMonotone(Synced(i, Some(e)), i, r.now, t);
    SpendKeepsAccrual(i, e, Draw(Synced(i, Some(e)), i, r.amount, r.now), t);
  }

  lemma SpendKeepsAccrual(i: Intent, e: Deal, amount: nat, now: int)
    requires i.status == Finalized
    ensures var s, n := Synced(i, Some(e)), Spent(i, amount);
            Accrued(Synced(n, Some(s.(paid := n.paid))), n, now) == Accrued(s, i, now)
  {
    SyncKeepsSchedule(i, e, amount);
  }

  /** From the end of its term on, a large enough request draws exactly what is left of the locked fee. */
  lemma ExpiredDealPaysTheRest(i: Intent, e: Deal, requested: nat, start: int, end: int, now: int)
    requires Solvent(i) && i.duration > 0 && i.status == Finalized
    requires RunsOver(Synced(i, Some(e)), i, start, end) && now >= end
    requires requested >= i.locked - i.paid
    ensures var s := Synced(i, Some(e));
            var n := Spent(i, Draw(s, i, requested, now));
            && Draw(s, i, requested, now) == i.locked - Used(i)
            && Used(n) == n.locked && Remaining(n) == 0
  {
    SolventRemaining(i);
    AccruesOverTerm(Synced(i, Some(e)), i, start, end, now);
  }
}
