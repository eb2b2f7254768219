/** Proposer choice: the availability window that scales a validator's power, and the weighted
    choice over cumulative effective power. The block seed is a parameter. */
module Proposer {
  import opened Numbers
  import Finality

  const DEFAULT_WINDOW: nat := 7200

  // ---------------------------------------------------------------- the availability window

  /** The ring buffer of a validator's last proposer turns. */
  datatype Window = Window(turns: seq<bool>, head: nat, successes: nat, misses: nat)

  const EMPTY: Window := Window([], 0, 0, 0)

  /** Seven thousand two hundred turns unless configured. */
  function WindowSize(configured: nat): (w: nat)
    ensures w > 0 && (configured > 0 ==> w == configured) && (configured == 0 ==> w == 7200)
  {
    if configured == 0 then DEFAULT_WINDOW else configured
  }

  predicate Shaped(b: Window, w: nat) { w > 0 && |b.turns| <= w && b.head < w && (|b.turns| == w || b.head == |b.turns|) }

  function Record(b: Window, w: nat, produced: bool): (r: Window)
    requires Shaped(b, w)
    ensures Shaped(r, w)
  {
    var full := |b.turns| == w;
    var dropsHit := full && b.turns[b.head];
    var dropsMiss := full && !b.turns[b.head];
    var s := if dropsHit && b.successes > 0 then b.successes - 1 else b.successes;
    var m := if dropsMiss && b.misses > 0 then b.misses - 1 else b.misses;
    Window(if full then b.turns[b.head := produced] else b.turns + [produced],
           if b.head + 1 == w then 0 else b.head + 1,
           if produced then s + 1 else s, if produced then m else m + 1)
  }

  lemma NextSlot(head: nat, w: nat)
    requires head < w
    ensures (head + 1) % w == if head + 1 == w then 0 else head + 1
  {
  }

  function Count(s: seq<bool>, x: bool): nat {
    if s == [] then 0 else Count(s[..|s| - 1], x) + (if s[|s| - 1] == x then 1 else 0)
  }

  lemma {:induction false} CountSplits(s: seq<bool>, t: seq<bool>, x: bool)
    ensures Count(s + t, x) == Count(s, x) + Count(t, x)
  {
    if t == [] {
      assert s + t == s;
    } else {
      CountSplits(s, t[..|t| - 1], x);
      assert (s + t)[..|s + t| - 1] == s + t[..|t| - 1];
    }
  }

  /** The last `w` turns of a history. */
  function LastTurns(history: seq<bool>, w: nat): seq<bool> {
    if |history| <= w then history else history[|history| - w..]
  }

  /** The buffer unrolled from its oldest slot. */
  function Unrolled(b: Window, w: nat): seq<bool>
    requires Shaped(b, w)
  {
    if |b.turns| < w then b.turns else b.turns[b.head..] + b.turns[..b.head]
  }

  /** The buffer holds exactly the last turns of the history, oldest at `head` once full, with exact counts. */
  ghost predicate Mirrors(b: Window, w: nat, history: seq<bool>) {
    && Shaped(b, w)
    && Unrolled(b, w) == LastTurns(history, w)
    && (|history| < w ==> |b.turns| == |history|)
    && (|history| >= w ==> |b.turns| == w)
    && b.successes == Count(LastTurns(history, w), true)
    && b.misses == Count(LastTurns(history, w), false)
  }

  /** A turn of a full buffer drops the oldest turn and appends the new one. */
  lemma FullTurn(b: Window, w: nat, produced: bool)
    requires Shaped(b, w) && |b.turns| == w
    ensures Unrolled(Record(b, w, produced), w) == Unrolled(b, w)[1..] + [produced]
    ensures Unrolled(b, w)[0] == b.turns[b.head]
  {
    var r := Record(b, w, produced);
    if b.head + 1 == w {
      assert r.turns == b.turns[..w - 1] + [produced];
      assert b.turns[b.head..] == [b.turns[b.head]];
    } else {
      assert r.turns[r.head..] == b.turns[b.head + 1..];
      assert r.turns[..r.head] == b.turns[..b.head] + [produced];
    }
  }

  lemma CountAfterDrop(s: seq<bool>, produced: bool, x: bool)
    requires s != []
    ensures Count(s[1..] + [produced], x) == Count(s, x) - (if s[0] == x then 1 else 0) + (if produced == x then 1 else 0)
  {
    assert s == [s[0]] + s[1..];
    CountSplits([s[0]], s[1..], x);
    CountSplits(s[1..], [produced], x);
    assert Count([], x) == 0 && [s[0]][..0] == [] && [produced][..0] == [];
  }

  lemma GrowingTurnMirrors(b: Window, w: nat, history: seq<bool>, produced: bool)
    requires Mirrors(b, w, history) && |history| < w
    ensures Mirrors(Record(b, w, produced), w, history + [produced])
  {
    var next := history + [produced];
    assert LastTurns(history, w) == history == b.turns;
    assert LastTurns(next, w) == next && next[..|next| - 1] == history;
    assert Record(b, w, produced).turns == next;
  }

  lemma FullTurnMirrors(b: Window, w: nat, history: seq<bool>, produced: bool)
    requires Mirrors(b, w, history) && |history| >= w
    ensures Mirrors(Record(b, w, produced), w, history + [produced])
  {
    var last := LastTurns(history, w);
    FullTurn(b, w, produced);
    LastTurnsSlide(history, w, produced);
    CountAfterDrop(last, produced, true);
    CountAfterDrop(last, produced, false);
  }

  lemma LastTurnsSlide(history: seq<bool>, w: nat, produced: bool)
    requires 0 < w <= |history|
    ensures LastTurns(history + [produced], w) == LastTurns(history, w)[1..] + [produced]
  {
  }

  function Replay(history: seq<bool>, w: nat): (b: Window)
    requires w > 0
    ensures Shaped(b, w)
  {
    if history == [] then EMPTY else Record(Replay(history[..|history| - 1], w), w, history[|history| - 1])
  }

  /** For a fixed window size and any history of turns, the ring buffer mirrors the history. */
  lemma {:induction false} BufferRefinesHistory(history: seq<bool>, w: nat)
    requires w > 0
    ensures Mirrors(Replay(history, w), w, history)
  {
    if history == [] {
      assert LastTurns(history, w) == [];
    } else {
      var before, turn := history[..|history| - 1], history[|history| - 1];
      BufferRefinesHistory(before, w);
      assert before + [turn] == history;
      if |before| < w {
        GrowingTurnMirrors(Replay(before, w), w, before, turn);
      } else {
        FullTurnMirrors(Replay(before, w), w, before, turn);
      }
    }
  }

  /** Availability in basis points. */
  function Score(b: Window): nat {
    if b.successes + b.misses == 0 then 10000
    else
      DivisionLaw(WrapMul(b.successes, 10000), b.successes + b.misses);
      WrapMul(b.successes, 10000) / (b.successes + b.misses)
  }

  lemma {:induction false} CountsCover(s: seq<bool>)
    ensures Count(s, true) + Count(s, false) == |s|
  {
    if s != [] { CountsCover(s[..|s| - 1]); }
  }

  /** The score of a history is the share of produced turns among the last ones, in basis points. */
  lemma ScoreIsRatio(history: seq<bool>, w: nat)
    requires 0 < w && w * 10000 < TWO64
    ensures var last := LastTurns(history, w);
            Score(Replay(history, w)) == if history == [] then 10000 else Count(last, true) * 10000 / |last|
  {
    BufferRefinesHistory(history, w);
    CountsCover(LastTurns(history, w));
  }

  class TurnWindow {
    var turns: seq<bool>
    var head: nat
    var successes: nat
    var misses: nat

    ghost function View(): Window
      reads this
    {
      Window(turns, head, successes, misses)
    }

    constructor ()
      ensures View() == EMPTY
    {
      turns, head, successes, misses := [], 0, 0, 0;
    }

    /** Records one turn; a window size of zero stands for the default. */
    method RecordTurn(configured: nat, produced: bool)
      requires Shaped(View(), WindowSize(configured))
      modifies this
      ensures View() == Record(old(View()), WindowSize(configured), produced)
    {
      var w := configured;
      if w == 0 { w := DEFAULT_WINDOW; }
      if |turns| < w {
        turns := turns + [produced];
      } else {
        var oldest := turns[head];
        if oldest {
          if successes > 0 { successes := successes - 1; }
        } else {
          if misses > 0 { misses := misses - 1; }
        }
        turns := turns[head := produced];
      }
      if produced { successes := successes + 1; } else { misses := misses + 1; }
      NextSlot(head, w);
      head := (head + 1) % w;
    }
  }

  // ---------------------------------------------------------------- the weighted choice

  /** Stake power scaled by availability; the product wraps at 64 bits. */
  function EffectivePower(raw: nat, score: nat): (p: nat) {
    DivisionLaw(WrapMul(raw, score), 10000);
    WrapMul(raw, score) / 10000
  }

  /** Scaling is floor(raw * score / 10000) exactly while the product fits in 64 bits. */
  lemma EffectivePowerScales(raw: nat, score: nat)
    ensures EffectivePower(raw, score) == raw * score / 10000 <==> raw * score < TWO64
  {
    assert raw * score >= 0;
    if raw * score >= TWO64 { WrapLowers(raw * score); }
  }

  lemma WrapLowers(x: nat)
    requires x >= TWO64
    ensures x % TWO64 / 10000 < x / 10000
  {
    DivisionLaw(x, TWO64);
    FloorAbove(x, TWO64, 1);
    MulMono(TWO64, 1, x / TWO64);
    assert x % TWO64 + 10000 <= x;
    DivisionLaw(x % TWO64, 10000);
    FloorAbove(x, 10000, x % TWO64 / 10000 + 1);
  }

  /** About 18.4 million tokens of stake at full availability: the product wraps and the validator is
      left without power. */
  lemma LargeStakeWraps()
    ensures EffectivePower(1844674407370956, 10000) == 0
  {
    assert 1844674407370956 * 10000 == TWO64 + 8384;
  }

  /** A consensus validator with its availability window. */
  datatype Contender = Contender(validator: Finality.Validator, window: Window)

  function PowerOf(c: Contender): nat { EffectivePower(Finality.Power(c.validator), Score(c.window)) }

  function Powers(cs: seq<Contender>): seq<nat> { seq(|cs|, i requires 0 <= i < |cs| => PowerOf(cs[i])) }

  function Prefix(powers: seq<nat>, n: nat): nat
    requires n <= |powers|
  {
    if n == 0 then 0 else Prefix(powers, n - 1) + powers[n - 1]
  }

  function TotalOf(powers: seq<nat>): nat { Prefix(powers, |powers|) }

  /** `i` owns the threshold `t`: it lies in the stretch of cumulative power that `i` adds. */
  predicate Owns(powers: seq<nat>, i: nat, t: nat) {
    i < |powers| && Prefix(powers, i) <= t < Prefix(powers, i + 1)
  }

  lemma {:induction false} PrefixMonotone(powers: seq<nat>, i: nat, j: nat)
    requires i <= j <= |powers|
    ensures Prefix(powers, i) <= Prefix(powers, j)
    decreases j - i
  {
    if i < j { PrefixMonotone(powers, i, j - 1); }
  }

  /** The seed picks the validator that owns `seed mod total`; there is none only when all effective
      powers are zero. The loop always finds it, so the final fallback is unreachable. */
  method SelectProposer(cs: seq<Contender>, seed: nat) returns (choice: Option<nat>)
    requires TotalOf(Powers(cs)) <= MAX_U64
    ensures choice.None? <==> TotalOf(Powers(cs)) == 0
    ensures choice.Some? ==> Owns(Powers(cs), choice.value, seed % TotalOf(Powers(cs))) && PowerOf(cs[choice.value]) > 0
  {
    if |cs| == 0 { return None; }
    var powers, total := MeasurePowers(cs);
    if total == 0 { return None; }
    var i := FindOwner(powers, seed % total);
    return Some(i);
  }

  method MeasurePowers(cs: seq<Contender>) returns (powers: seq<nat>, total: nat)
    requires TotalOf(Powers(cs)) <= MAX_U64
    ensures powers == Powers(cs) && total == TotalOf(powers)
  {
    powers, total := [], 0;
    ghost var all := Powers(cs);
    var i := 0;
    while i < |cs|
      invariant 0 <= i <= |cs| && powers == all[..i] && total == Prefix(all, i)
    {
      PrefixMonotone(all, i + 1, |all|);
      var p := EffectivePower(Finality.Power(cs[i].validator), Score(cs[i].window));
      powers, total := powers + [p], SatAdd(total, p);
      i := i + 1;
    }
  }

  method FindOwner(powers: seq<nat>, threshold: nat) returns (i: nat)
    requires threshold < TotalOf(powers) <= MAX_U64
    ensures Owns(powers, i, threshold)
  {
    var cumulative := 0;
    i := 0;
    while i < |powers|
      invariant 0 <= i <= |powers| && cumulative == Prefix(powers, i) <= threshold
    {
      PrefixMonotone(powers, i + 1, |powers|);
      cumulative := SatAdd(cumulative, powers[i]);
      if threshold < cumulative { return; }
      i := i + 1;
    }
    assert false;
  }

  lemma OwnerIsUnique(powers: seq<nat>, i: nat, j: nat, t: nat)
    requires Owns(powers, i, t) && Owns(powers, j, t)
    ensures i == j
  {
    if i < j { PrefixMonotone(powers, i + 1, j); }
    if j < i { PrefixMonotone(powers, j + 1, i); }
  }

  predicate Between(lo: nat, t: nat, hi: nat) { lo <= t < hi }

  function Stretch(lo: nat, hi: nat): set<nat> { set t: nat | t < hi && Between(lo, t, hi) }

  lemma {:induction false} StretchSize(lo: nat, hi: nat)
    requires lo <= hi
    ensures |Stretch(lo, hi)| == hi - lo
    decreases hi
  {
    if lo == hi {
      assert Stretch(lo, hi) == {};
    } else {
      StretchSize(lo, hi - 1);
      assert Stretch(lo, hi) == Stretch(lo, hi - 1) + {hi - 1};
    }
  }

  lemma OwnedStretch(powers: seq<nat>, i: nat)
    requires i < |powers|
    ensures |set t: nat | t < TotalOf(powers) && Owns(powers, i, t)| == powers[i]
  {
    PrefixMonotone(powers, i + 1, |powers|);
    assert (set t: nat | t < TotalOf(powers) && Owns(powers, i, t)) == Stretch(Prefix(powers, i), Prefix(powers, i + 1));
    StretchSize(Prefix(powers, i), Prefix(powers, i + 1));
  }

  /** The choice is exactly proportional: of the thresholds below the total, each one has a single
      owner, and each validator owns as many as it has effective power. */
  lemma ChoiceIsProportional(cs: seq<Contender>, i: nat)
    requires i < |cs|
    ensures |set t: nat | t < TotalOf(Powers(cs)) && Owns(Powers(cs), i, t)| == PowerOf(cs[i])
    ensures forall t: nat, j: nat | Owns(Powers(cs), i, t) && Owns(Powers(cs), j, t) :: i == j
  {
    OwnedStretch(Powers(cs), i);
    forall t: nat, j: nat | Owns(Powers(cs), i, t) && Owns(Powers(cs), j, t) ensures i == j { OwnerIsUnique(Powers(cs), i, j, t); }
  }

  /** The score that a history of turns earns. */
  function Availability(history: seq<bool>, w: nat): nat
    requires w > 0
  {
    if history == [] then 10000
    else
      var last := LastTurns(history, w);
      DivisionLaw(Count(last, true) * 10000, |last|);
      Count(last, true) * 10000 / |last|
  }

  /** Of the thresholds, a validator owns stake power times recent availability, rounded down, if and
      only if that product fits in 64 bits. */
  lemma ChoiceFollowsHistory(cs: seq<Contender>, i: nat, history: seq<bool>, w: nat)
    requires i < |cs| && 0 < w && w * 10000 < TWO64 && cs[i].window == Replay(history, w)
    ensures var x := Finality.Power(cs[i].validator) * Availability(history, w);
            |set t: nat | t < TotalOf(Powers(cs)) && Owns(Powers(cs), i, t)| == x / 10000 <==> x < TWO64
  {
    ScoreIsRatio(history, w);
    ChoiceIsProportional(cs, i);
    EffectivePowerScales(Finality.Power(cs[i].validator), Availability(history, w));
  }

  /** Every threshold below the total has an owner. */
  lemma {:induction false} EveryThresholdHasAnOwner(powers: seq<nat>, n: nat, t: nat) returns (i: nat)
    requires n <= |powers| && t < Prefix(powers, n)
    ensures Owns(powers, i, t)
  {
    if Prefix(powers, n - 1) <= t {
      i := n - 1;
    } else {
      i := EveryThresholdHasAnOwner(powers, n - 1, t);
    }
  }
}
