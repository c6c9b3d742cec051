/** The irrigation agent: what its soil probe shows, and how it settles predictions of rain.

    The sky is an arbitrary function from six-hour slots to rain (the hash that draws it is
    not modelled). Times are whole seconds; `/` is Python's `//`, the divisor being positive. */
module Irrigator {
  import opened Wrappers

  const SLOT: int := 21600
  const SOIL_DRY_SECS: int := 172800
  const WATER_BELOW: int := 40
  const STRESS_BELOW: int := 15
  const BURNS_TO_IGNORE: nat := 3
  const KEEP: nat := 100

  type Sky = int -> bool

  function Raining(sky: Sky, ts: int): bool { sky(ts / SLOT) }

  /** A dry slot gives way to a raining one at the start of this slot. */
  predicate Begins(sky: Sky, slot: int) { sky(slot) && !sky(slot - 1) }

  /** Rain begins at the moment `t`. */
  predicate RainStart(sky: Sky, t: int) { t % SLOT == 0 && Begins(sky, t / SLOT) }

  ghost predicate StartIn(sky: Sky, a: int, b: int) { exists t :: a < t <= b && RainStart(sky, t) }

  function Min(a: int, b: int): int { if a < b then a else b }

  function Max(a: int, b: int): int { if a > b then a else b }

  // --------------------------------------------------------------- rain_starts_between

  function FirstFrom(sky: Sky, slot: int, a: int, b: int): Option<int>
    decreases b / SLOT + 1 - slot
  {
    if slot > b / SLOT then None
    else if Begins(sky, slot) && a < slot * SLOT <= b then Some(slot * SLOT)
    else FirstFrom(sky, slot + 1, a, b)
  }

  function FirstStart(sky: Sky, a: int, b: int): Option<int> { FirstFrom(sky, a / SLOT, a, b) }

  lemma SlotStart(slot: int)
    ensures slot * SLOT / SLOT == slot && slot * SLOT % SLOT == 0
  {}

  lemma {:induction false} FirstFromIs(sky: Sky, slot: int, a: int, b: int)
    ensures match FirstFrom(sky, slot, a, b)
      case None => forall t | a < t <= b && slot <= t / SLOT :: !RainStart(sky, t)
      case Some(s) => a < s <= b && RainStart(sky, s) && forall t | a < t < s && slot <= t / SLOT :: !RainStart(sky, t)
    decreases b / SLOT + 1 - slot
  {
    if slot <= b / SLOT {
      SlotStart(slot);
      forall t | slot == t / SLOT && t % SLOT == 0 ensures t == slot * SLOT {}
      if !(Begins(sky, slot) && a < slot * SLOT <= b) {
        FirstFromIs(sky, slot + 1, a, b);
        forall t | a < t <= b && slot <= t / SLOT && RainStart(sky, t) ensures slot + 1 <= t / SLOT {}
      } else {
        forall t | a < t < slot * SLOT && slot <= t / SLOT ensures !RainStart(sky, t) {}
      }
    }
  }

  /** The first moment in (a, b] at which rain begins, if there is one. */
  lemma FirstStartIs(sky: Sky, a: int, b: int)
    ensures FirstStart(sky, a, b).None? <==> !StartIn(sky, a, b)
    ensures FirstStart(sky, a, b).Some? ==>
      var s := FirstStart(sky, a, b).value; a < s <= b && RainStart(sky, s) && !StartIn(sky, a, s - 1)
  {
    FirstFromIs(sky, a / SLOT, a, b);
  }

  method RainStartsBetween(sky: Sky, a: int, b: int) returns (r: Option<int>)
    ensures r == FirstStart(sky, a, b)
  {
    var slot := a / SLOT;
    var last := b / SLOT;
    while slot <= last
      invariant FirstStart(sky, a, b) == FirstFrom(sky, slot, a, b)
      decreases last + 1 - slot
    {
      var start := slot * SLOT;
      if sky(slot) && !sky(slot - 1) && a < start <= b { return Some(start); }
      slot := slot + 1;
    }
    r := None;
  }

  // --------------------------------------------------------------------------- the soil

  /** The last moment in (wet, now] at which rain began, else `wet`. */
  function LastStart(sky: Sky, wet: int, slot: int, now: int): int
    decreases slot - wet / SLOT + 1
  {
    if slot < wet / SLOT then wet
    else if Begins(sky, slot) && wet < slot * SLOT <= now then slot * SLOT
    else LastStart(sky, wet, slot - 1, now)
  }

  /** What `wet_at` becomes: the latest of itself, the last rain start up to now, and now
      when it is raining. */
  function WetAfter(sky: Sky, wet: int, now: int): int {
    if Raining(sky, now) then Max(wet, now) else LastStart(sky, wet, now / SLOT, now)
  }

  lemma {:induction false} LastStartIs(sky: Sky, wet: int, slot: int, now: int)
    ensures var s := LastStart(sky, wet, slot, now);
      && wet <= s && (s == wet || (s <= now && RainStart(sky, s)))
      && forall t | s < t <= now && t / SLOT <= slot && RainStart(sky, t) :: false
    decreases slot - wet / SLOT + 1
  {
    if slot >= wet / SLOT {
      SlotStart(slot);
      if !(Begins(sky, slot) && wet < slot * SLOT <= now) {
        LastStartIs(sky, wet, slot - 1, now);
        forall t | wet < t <= now && t / SLOT <= slot && RainStart(sky, t) ensures t / SLOT <= slot - 1 {
          assert t / SLOT == slot ==> t == slot * SLOT;
        }
      } else {
        forall t | slot * SLOT < t <= now && t / SLOT <= slot ensures !RainStart(sky, t) {}
      }
    } else {
      forall t | wet < t <= now && t / SLOT <= slot ensures false {}
    }
  }

  /** A probe moves the wet moment to the latest of what it was, the last rain start
      since, and now when it rains. */
  lemma WetAfterIs(sky: Sky, wet: int, now: int)
    ensures var w := WetAfter(sky, wet, now);
      && wet <= w && (w == wet || w <= now)
      && (w == wet || RainStart(sky, w) || (w == now && Raining(sky, now)))
      && !StartIn(sky, w, now) && (Raining(sky, now) ==> w >= now)
  {
    LastStartIs(sky, wet, now / SLOT, now);
    forall t | t <= now ensures t / SLOT <= now / SLOT {}
  }

  /** `int(100 * x / SOIL_DRY_SECS)` truncates toward zero. */
  function Dryness(x: int): int { if x >= 0 then 100 * x / SOIL_DRY_SECS else -(100 * -x / SOIL_DRY_SECS) }

  function Reading(wetAt: int, now: int): int { Max(0, 100 - Dryness(now - wetAt)) }

  /** The probe in numbers: a hundred when just wet, one less for every 1,728 seconds that have
      passed in full, nothing left after two days. */
  lemma ReadingFalls(wetAt: int, now: int, k: int)
    requires 0 <= k < 100 && wetAt <= now
    ensures Reading(wetAt, now) == 100 - k <==> 1728 * k <= now - wetAt < 1728 * (k + 1)
    ensures Reading(wetAt, now) == 0 <==> now - wetAt >= 172800
  {
    var x := now - wetAt;
    assert 100 * x / 172800 == x / 1728;
  }

  /** MAIN. On a clock that has not gone back the reading is a percentage, and an extra
      probe in between never lowers a later one. It raises it exactly when it caught rain
      that had ended by the later probe and began before the earlier: the soil then counts
      as wet at the moment of the probe rather than at the start of the rain. */
  lemma ExtraProbe(sky: Sky, wet: int, t1: int, t2: int)
    requires wet <= t1 <= t2
    ensures 0 <= Reading(WetAfter(sky, wet, t1), t1) <= 100
    ensures Reading(WetAfter(sky, wet, t2), t2) <= Reading(WetAfter(sky, WetAfter(sky, wet, t1), t2), t2) <= 100
    ensures WetAfter(sky, WetAfter(sky, wet, t1), t2) != WetAfter(sky, wet, t2) <==>
      Raining(sky, t1) && !Raining(sky, t2) && !StartIn(sky, t1, t2) && wet < t1 && !RainStart(sky, t1)
  {
    var w1, w2 := WetAfter(sky, wet, t1), WetAfter(sky, wet, t2);
    var w := WetAfter(sky, w1, t2);
    WetAfterIs(sky, wet, t1);
    WetAfterIs(sky, wet, t2);
    WetAfterIs(sky, w1, t2);
    assert w2 <= w;
    assert w <= t2 && w2 <= t2;
    DrynessMonotone(t2 - w, t2 - w2);
    DrynessMonotone(0, t1 - w1);
    DrynessMonotone(0, t2 - w);
    ProbeCatches(sky, wet, t1, t2);
  }

  lemma DrynessMonotone(x: int, y: int)
    requires 0 <= x <= y
    ensures 0 <= Dryness(x) <= Dryness(y)
  {}

  lemma ProbeCatches(sky: Sky, wet: int, t1: int, t2: int)
    requires wet <= t1 <= t2
    ensures WetAfter(sky, WetAfter(sky, wet, t1), t2) != WetAfter(sky, wet, t2) <==>
      Raining(sky, t1) && !Raining(sky, t2) && !StartIn(sky, t1, t2) && wet < t1 && !RainStart(sky, t1)
  {
    var w1, w2 := WetAfter(sky, wet, t1), WetAfter(sky, wet, t2);
    var w := WetAfter(sky, w1, t2);
    WetAfterIs(sky, wet, t1);
    WetAfterIs(sky, wet, t2);
    WetAfterIs(sky, w1, t2);
    if StartIn(sky, t1, t2) && !Raining(sky, t2) {
      var t :| t1 < t <= t2 && RainStart(sky, t);
      assert w >= t && w2 >= t;
      assert w == w2;
    }
  }

  // ------------------------------------------------------------------------ settlement

  datatype Status = Open | Credited | Burned

  datatype Prediction = Prediction(ts: int, who: string, deadline: int, status: Status)

  datatype Score = Score(credits: nat, burns: nat)

  predicate CreditDue(sky: Sky, p: Prediction, now: int) {
    FirstStart(sky, p.ts, Min(now, p.deadline)).Some? || (Raining(sky, now) && now <= p.deadline)
  }

  function Settle(sky: Sky, p: Prediction, now: int): Prediction {
    if p.status != Open then p
    else if CreditDue(sky, p, now) then p.(status := Credited)
    else if now > p.deadline then p.(status := Burned)
    else p
  }

  function SettleOver(sky: Sky, p: Prediction, ticks: seq<int>): Prediction {
    if ticks == [] then p else Settle(sky, SettleOver(sky, p, ticks[..|ticks| - 1]), ticks[|ticks| - 1])
  }

  /** Ticks at or after the prediction; the clock does not go back. */
  ghost predicate TicksFrom(ts: int, ticks: seq<int>) {
    (forall i | 0 <= i < |ticks| :: ts <= ticks[i]) && forall i, j | 0 <= i < j < |ticks| :: ticks[i] <= ticks[j]
  }

  /** Ticks that outlast the window. */
  ghost predicate Outlast(p: Prediction, ticks: seq<int>) {
    TicksFrom(p.ts, ticks) && ticks != [] && ticks[|ticks| - 1] > p.deadline
  }

  /** Rain now, where it was dry before, began in between. */
  lemma {:induction false} RainBegan(sky: Sky, dry: int, wet: int)
    requires dry < wet && !sky(dry) && sky(wet)
    ensures exists s :: dry < s <= wet && Begins(sky, s)
    decreases wet - dry
  {
    if sky(wet - 1) { RainBegan(sky, dry, wet - 1); } else { assert Begins(sky, wet); }
  }

  lemma CreditMeansStart(sky: Sky, p: Prediction, now: int)
    requires p.ts <= now && !Raining(sky, p.ts)
    ensures CreditDue(sky, p, now) <==> StartIn(sky, p.ts, Min(now, p.deadline))
  {
    FirstStartIs(sky, p.ts, Min(now, p.deadline));
    if Raining(sky, now) && now <= p.deadline {
      RainBegan(sky, p.ts / SLOT, now / SLOT);
      var s :| p.ts / SLOT < s <= now / SLOT && Begins(sky, s);
      SlotStart(s);
      assert RainStart(sky, s * SLOT) && p.ts < s * SLOT <= now;
    }
  }

  /** MAIN. A prediction issued while it is dry gets the sky's verdict whenever the ticks
      fall: never credited unless rain begins in (ts, deadline], never burned if it does,
      and settled by any ticks that outlast the window. */
  lemma {:induction false} DrySettlement(sky: Sky, p: Prediction, ticks: seq<int>)
    requires p.status == Open && !Raining(sky, p.ts) && TicksFrom(p.ts, ticks)
    ensures SettleOver(sky, p, ticks).status == Credited ==> StartIn(sky, p.ts, p.deadline)
    ensures SettleOver(sky, p, ticks).status == Burned ==> !StartIn(sky, p.ts, p.deadline)
    ensures Outlast(p, ticks) ==> SettleOver(sky, p, ticks).status == if StartIn(sky, p.ts, p.deadline) then Credited else Burned
    ensures SettleOver(sky, p, ticks) == p.(status := SettleOver(sky, p, ticks).status)
  {
    if ticks != [] {
      var n := |ticks| - 1;
      DrySettlement(sky, p, ticks[..n]);
      CreditMeansStart(sky, p, ticks[n]);
    }
  }

  /** Settled exactly once: no later tick touches a settled prediction. */
  lemma {:induction false} SettledOnce(sky: Sky, p: Prediction, ticks: seq<int>)
    requires p.status != Open
    ensures SettleOver(sky, p, ticks) == p
  {
    if ticks != [] { SettledOnce(sky, p, ticks[..|ticks| - 1]); }
  }

  /** The verdict is the same for all ticks that outlast the window. */
  ghost predicate TickIndependent(sky: Sky, p: Prediction) {
    forall a, b | Outlast(p, a) && Outlast(p, b) :: SettleOver(sky, p, a) == SettleOver(sky, p, b)
  }

  lemma {:induction false} StartSettlesCredited(sky: Sky, p: Prediction, ticks: seq<int>)
    requires p.status == Open && StartIn(sky, p.ts, p.deadline) && TicksFrom(p.ts, ticks)
    ensures SettleOver(sky, p, ticks).status != Burned
    ensures Outlast(p, ticks) ==> SettleOver(sky, p, ticks).status == Credited
    ensures SettleOver(sky, p, ticks) == p.(status := SettleOver(sky, p, ticks).status)
  {
    if ticks != [] {
      var n := |ticks| - 1;
      StartSettlesCredited(sky, p, ticks[..n]);
      FirstStartIs(sky, p.ts, Min(ticks[n], p.deadline));
    }
  }

  /** MAIN. When the verdict depends on nothing but the sky: exactly when the prediction was
      issued while dry, or rain begins again inside its window. Issued in the rain and with
      none to come, it is credited if a tick catches that rain and burned if none does. */
  lemma TickIndependence(sky: Sky, p: Prediction)
    requires p.status == Open && p.ts <= p.deadline
    ensures TickIndependent(sky, p) <==> !Raining(sky, p.ts) || StartIn(sky, p.ts, p.deadline)
  {
    if !Raining(sky, p.ts) {
      forall a, b | Outlast(p, a) && Outlast(p, b) ensures SettleOver(sky, p, a) == SettleOver(sky, p, b) {
        DrySettlement(sky, p, a);
        DrySettlement(sky, p, b);
      }
    } else if StartIn(sky, p.ts, p.deadline) {
      forall a, b | Outlast(p, a) && Outlast(p, b) ensures SettleOver(sky, p, a) == SettleOver(sky, p, b) {
        StartSettlesCredited(sky, p, a);
        StartSettlesCredited(sky, p, b);
      }
    } else {
      var early, late := [p.ts, p.deadline + 1], [p.deadline + 1];
      assert early[..1] == [p.ts] && [p.ts][..0] == [] && late[..0] == [];
      FirstStartIs(sky, p.ts, p.deadline);
      assert SettleOver(sky, p, [p.ts]) == Settle(sky, SettleOver(sky, p, []), p.ts) == p.(status := Credited);
      assert SettleOver(sky, p, early).status == Credited;
      assert SettleOver(sky, p, late) == Settle(sky, SettleOver(sky, p, []), p.deadline + 1) == p.(status := Burned);
      assert Outlast(p, early) && Outlast(p, late);
    }
  }

  /** A tick inside the window catches rain. */
  predicate Catches(sky: Sky, p: Prediction, t: int) { t <= p.deadline && Raining(sky, t) }

  /** MAIN. The verdict in full, dry or wet at issue: whatever the ticks, an open prediction is
      credited exactly when rain begins in its window by the last tick or a tick inside the
      window finds it raining, is burned exactly when neither is so and the last tick lies
      beyond the deadline, and is open still otherwise. */
  lemma {:induction false} VerdictIs(sky: Sky, p: Prediction, ticks: seq<int>)
    requires p.status == Open && TicksFrom(p.ts, ticks) && ticks != []
    ensures var last := ticks[|ticks| - 1];
      var credited := StartIn(sky, p.ts, Min(last, p.deadline)) || exists i :: 0 <= i < |ticks| && Catches(sky, p, ticks[i]);
      SettleOver(sky, p, ticks)
        == p.(status := if credited then Credited else if last > p.deadline then Burned else Open)
  {
    var n := |ticks| - 1;
    var before, last := ticks[..n], ticks[n];
    FirstStartIs(sky, p.ts, Min(last, p.deadline));
    assert Catches(sky, p, last) <==> last <= p.deadline && Raining(sky, last);
    assert forall i | 0 <= i < n :: before[i] == ticks[i];
    if n == 0 {
      assert SettleOver(sky, p, before) == p;
    } else {
      VerdictIs(sky, p, before);
      var prior := Min(before[n - 1], p.deadline);
      if StartIn(sky, p.ts, prior) { assert StartIn(sky, p.ts, Min(last, p.deadline)); }
      assert (exists i :: 0 <= i < |ticks| && Catches(sky, p, ticks[i])) <==>
             (exists i :: 0 <= i < n && Catches(sky, p, before[i])) || Catches(sky, p, last) by {
        if i :| 0 <= i < n && Catches(sky, p, before[i]) { assert Catches(sky, p, ticks[i]); }
      }
    }
    hide StartIn;
  }

  // ----------------------------------------------------------------------- conservation

  function ScoreOf(sources: map<string, Score>, who: string): Score {
    if who in sources then sources[who] else Score(0, 0)
  }

  function Mark(sources: map<string, Score>, who: string, before: Status, after: Status): map<string, Score> {
    var s := ScoreOf(sources, who);
    if before != Open then sources
    else if after == Credited then sources[who := s.(credits := s.credits + 1)]
    else if after == Burned then sources[who := s.(burns := s.burns + 1)]
    else sources[who := s]
  }

  /** The settlement loop of one tick over the first predictions of the list. */
  function SettleList(sky: Sky, preds: seq<Prediction>, now: int): seq<Prediction> {
    seq(|preds|, i requires 0 <= i < |preds| => Settle(sky, preds[i], now))
  }

  function MarkList(sky: Sky, preds: seq<Prediction>, sources: map<string, Score>, now: int): map<string, Score> {
    if preds == [] then sources
    else
      var p := preds[|preds| - 1];
      Mark(MarkList(sky, preds[..|preds| - 1], sources, now), p.who, p.status, Settle(sky, p, now).status)
  }

  function Count(preds: seq<Prediction>, who: string, status: Status): nat {
    if preds == [] then 0
    else Count(preds[..|preds| - 1], who, status)
         + if preds[|preds| - 1].who == who && preds[|preds| - 1].status == status then 1 else 0
  }

  /** Each source's credits and burns are its settled predictions, trimmed ones included. */
  ghost predicate Conserved(all: seq<Prediction>, sources: map<string, Score>) {
    forall who :: ScoreOf(sources, who) == Score(Count(all, who, Credited), Count(all, who, Burned))
  }

  lemma {:induction false} CountAppend(a: seq<Prediction>, b: seq<Prediction>, who: string, status: Status)
    ensures Count(a + b, who, status) == Count(a, who, status) + Count(b, who, status)
  {
    if b == [] {
      assert a + b == a;
    } else {
      assert (a + b)[..|a + b| - 1] == a + b[..|b| - 1];
      CountAppend(a, b[..|b| - 1], who, status);
    }
  }

  function One(p: Prediction, who: string, status: Status): nat { if p.who == who && p.status == status then 1 else 0 }

  lemma MarkMatches(sources: map<string, Score>, p: Prediction, q: Prediction, who: string)
    requires q == p || (p.status == Open && q == p.(status := q.status))
    ensures var before, after := ScoreOf(sources, who), ScoreOf(Mark(sources, p.who, p.status, q.status), who);
      && after.credits + One(p, who, Credited) == before.credits + One(q, who, Credited)
      && after.burns + One(p, who, Burned) == before.burns + One(q, who, Burned)
  {}

  lemma {:induction false} MarksMatchSettlements(sky: Sky, preds: seq<Prediction>, sources: map<string, Score>, now: int, who: string)
    ensures var before, after := ScoreOf(sources, who), ScoreOf(MarkList(sky, preds, sources, now), who);
      var next := SettleList(sky, preds, now);
      && after.credits + Count(preds, who, Credited) == before.credits + Count(next, who, Credited)
      && after.burns + Count(preds, who, Burned) == before.burns + Count(next, who, Burned)
  {
    hide CreditDue;
    if preds != [] {
      var n := |preds| - 1;
      var p, q := preds[n], Settle(sky, preds[n], now);
      MarksMatchSettlements(sky, preds[..n], sources, now, who);
      MarkMatches(MarkList(sky, preds[..n], sources, now), p, q, who);
      var before, next := SettleList(sky, preds[..n], now), SettleList(sky, preds, now);
      assert next[..n] == before && next[n] == q;
    }
  }

  /** One tick keeps every source's books: what it adds to credits and burns is what
      it settled, whatever has been trimmed away before. */
  lemma TickConserves(sky: Sky, gone: seq<Prediction>, preds: seq<Prediction>, sources: map<string, Score>, now: int)
    requires Conserved(gone + preds, sources)
    ensures Conserved(gone + SettleList(sky, preds, now), MarkList(sky, preds, sources, now))
  {
    forall who
      ensures ScoreOf(MarkList(sky, preds, sources, now), who)
        == Score(Count(gone + SettleList(sky, preds, now), who, Credited), Count(gone + SettleList(sky, preds, now), who, Burned))
    {
      MarksMatchSettlements(sky, preds, sources, now, who);
      CountAppend(gone, preds, who, Credited);
      CountAppend(gone, preds, who, Burned);
      CountAppend(gone, SettleList(sky, preds, now), who, Credited);
      CountAppend(gone, SettleList(sky, preds, now), who, Burned);
    }
  }

  lemma DefaultConserves(all: seq<Prediction>, sources: map<string, Score>, who: string)
    requires Conserved(all, sources)
    ensures Conserved(all, sources[who := ScoreOf(sources, who)])
  {
    assert forall other :: ScoreOf(sources[who := ScoreOf(sources, who)], other) == ScoreOf(sources, other);
  }

  lemma OpenConserves(all: seq<Prediction>, sources: map<string, Score>, p: Prediction)
    requires Conserved(all, sources) && p.status == Open
    ensures Conserved(all + [p], sources)
  {
    forall who ensures ScoreOf(sources, who) == Score(Count(all + [p], who, Credited), Count(all + [p], who, Burned)) {
      assert (all + [p])[..|all|] == all;
    }
  }

  // ------------------------------------------------------------------------------- runs

  /** `/predict` and the decision tick, as they touch the predictions. */
  datatype Step = Foretold(who: string, now: int, secs: nat) | Tick(now: int)

  /** The predictions trimmed away, those kept, and the scores. */
  datatype Books = Books(gone: seq<Prediction>, kept: seq<Prediction>, sources: map<string, Score>)

  const BLANK := Books([], [], map[])

  function Issued(step: Step): Prediction
    requires step.Foretold?
  {
    Prediction(step.now, step.who, step.now + step.secs, Open)
  }

  function Trimmed(b: Books): Books {
    if |b.kept| <= KEEP then b
    else var cut := |b.kept| - KEEP; b.(gone := b.gone + b.kept[..cut], kept := b.kept[cut..])
  }

  function Next(sky: Sky, b: Books, step: Step): Books {
    match step
    case Foretold(who, _, _) =>
      var known := b.(sources := b.sources[who := ScoreOf(b.sources, who)]);
      if ScoreOf(b.sources, who).burns >= BURNS_TO_IGNORE then known else known.(kept := b.kept + [Issued(step)])
    case Tick(now) =>
      Trimmed(Books(b.gone, SettleList(sky, b.kept, now), MarkList(sky, b.kept, b.sources, now)))
  }

  function Run(sky: Sky, steps: seq<Step>): Books {
    if steps == [] then BLANK else Next(sky, Run(sky, steps[..|steps| - 1]), steps[|steps| - 1])
  }

  /** The times of the ticks among these steps. */
  function Ticks(steps: seq<Step>): seq<int> {
    if steps == [] then []
    else Ticks(steps[..|steps| - 1]) + if steps[|steps| - 1].Tick? then [steps[|steps| - 1].now] else []
  }

  /** This prediction was issued by step `k`, and has been settled by the ticks since. */
  ghost predicate SettledSince(sky: Sky, steps: seq<Step>, p: Prediction, k: int) {
    0 <= k < |steps| && steps[k].Foretold? && p == SettleOver(sky, Issued(steps[k]), Ticks(steps[k + 1..]))
  }

  ghost predicate Explained(sky: Sky, steps: seq<Step>, p: Prediction) { exists k :: SettledSince(sky, steps, p, k) }

  ghost predicate AllExplained(sky: Sky, steps: seq<Step>, kept: seq<Prediction>) {
    forall i | 0 <= i < |kept| :: Explained(sky, steps, kept[i])
  }

  lemma ExplainedMore(sky: Sky, before: seq<Step>, step: Step, p: Prediction)
    requires Explained(sky, before, p)
    ensures Explained(sky, before + [step], if step.Tick? then Settle(sky, p, step.now) else p)
  {
    hide Settle;
    var k :| SettledSince(sky, before, p, k);
    var all := before + [step];
    var rest := before[k + 1..];
    assert all[k + 1..] == rest + [step] && (rest + [step])[..|rest|] == rest;
    var ticks := Ticks(rest);
    if step.Tick? { assert (ticks + [step.now])[..|ticks|] == ticks; } else { assert ticks + [] == ticks; }
    assert SettledSince(sky, all, if step.Tick? then Settle(sky, p, step.now) else p, k);
  }

  lemma {:induction false} RunSettles(sky: Sky, steps: seq<Step>)
    ensures AllExplained(sky, steps, Run(sky, steps).kept)
    ensures Conserved(Run(sky, steps).gone + Run(sky, steps).kept, Run(sky, steps).sources)
  {
    if steps == [] {
      assert forall who :: Count([], who, Credited) == 0 && Count([], who, Burned) == 0;
      assert BLANK.gone + BLANK.kept == [];
    } else {
      var before, step := steps[..|steps| - 1], steps[|steps| - 1];
      assert steps == before + [step];
      RunSettles(sky, before);
      StepSettles(sky, before, step);
      StepConserves(sky, Run(sky, before), step);
    }
  }

  lemma StepSettles(sky: Sky, before: seq<Step>, step: Step)
    requires AllExplained(sky, before, Run(sky, before).kept)
    ensures AllExplained(sky, before + [step], Next(sky, Run(sky, before), step).kept)
  {
    hide Settle, Run, Explained;
    var a, b := Run(sky, before), Next(sky, Run(sky, before), step);
    var cut := |a.kept| - |b.kept|;
    forall i | 0 <= i < |b.kept| ensures Explained(sky, before + [step], b.kept[i]) {
      if step.Foretold? && i == |a.kept| {
        JustIssued(sky, before, step);
      } else {
        ExplainedMore(sky, before, step, a.kept[if step.Tick? then i + cut else i]);
      }
    }
  }

  lemma JustIssued(sky: Sky, before: seq<Step>, step: Step)
    requires step.Foretold?
    ensures Explained(sky, before + [step], Issued(step))
  {
    assert (before + [step])[|before| + 1..] == [];
    assert SettledSince(sky, before + [step], Issued(step), |before|);
  }

  lemma StepConserves(sky: Sky, b: Books, step: Step)
    requires Conserved(b.gone + b.kept, b.sources)
    ensures var n := Next(sky, b, step); Conserved(n.gone + n.kept, n.sources)
  {
    hide Settle, Conserved;
    match step {
      case Foretold(who, _, _) =>
        DefaultConserves(b.gone + b.kept, b.sources, who);
        OpenConserves(b.gone + b.kept, b.sources[who := ScoreOf(b.sources, who)], Issued(step));
        assert b.gone + (b.kept + [Issued(step)]) == b.gone + b.kept + [Issued(step)];
      case Tick(now) =>
        TickConserves(sky, b.gone, b.kept, b.sources, now);
        var settled := SettleList(sky, b.kept, now);
        if |settled| > KEEP {
          var cut := |settled| - KEEP;
          assert (b.gone + settled[..cut]) + settled[cut..] == b.gone + settled;
        }
    }
  }

  ghost predicate ClockRuns(steps: seq<Step>) { forall i, j | 0 <= i < j < |steps| :: steps[i].now <= steps[j].now }

  lemma {:induction false} TicksAreTimes(steps: seq<Step>, from: int)
    requires ClockRuns(steps) && forall i | 0 <= i < |steps| :: from <= steps[i].now
    ensures TicksFrom(from, Ticks(steps))
    ensures Ticks(steps) != [] && steps != [] ==> Ticks(steps)[|Ticks(steps)| - 1] <= steps[|steps| - 1].now
    ensures steps != [] && steps[|steps| - 1].Tick? ==> Ticks(steps) != [] && Ticks(steps)[|Ticks(steps)| - 1] == steps[|steps| - 1].now
  {
    if steps != [] {
      var before := steps[..|steps| - 1];
      TicksAreTimes(before, from);
    }
  }

  /** MAIN. The books against the sky: in any run of predictions and ticks on a clock that does
      not go back, whenever the ticks fell, every prediction on the list was issued by some
      step, is credited only if rain began in its window and burned only if none did, provided
      it was dry when issued or rain did begin there; a tick past its deadline finds it settled;
      and each source's
      credits and burns are its settled predictions, trimmed ones included. */
  lemma {:induction false} BooksFollowTheSky(sky: Sky, steps: seq<Step>)
    requires ClockRuns(steps)
    ensures Conserved(Run(sky, steps).gone + Run(sky, steps).kept, Run(sky, steps).sources)
    ensures forall p | p in Run(sky, steps).kept :: exists k :: SettledSince(sky, steps, p, k) && FollowsSky(sky, steps, p, k)
  {
    hide Run;
    RunSettles(sky, steps);
    forall p | p in Run(sky, steps).kept
      ensures exists k :: SettledSince(sky, steps, p, k) && FollowsSky(sky, steps, p, k) {
      var i :| 0 <= i < |Run(sky, steps).kept| && Run(sky, steps).kept[i] == p;
      assert Explained(sky, steps, p);
      var k :| SettledSince(sky, steps, p, k);
      OneFollowsSky(sky, steps, p, k);
    }
  }

  lemma OneFollowsSky(sky: Sky, steps: seq<Step>, p: Prediction, k: int)
    requires ClockRuns(steps) && SettledSince(sky, steps, p, k)
    ensures FollowsSky(sky, steps, p, k)
  {
    var issued, rest := Issued(steps[k]), steps[k + 1..];
    TicksAreTimes(rest, issued.ts);
    if !Raining(sky, issued.ts) { DrySettlement(sky, issued, Ticks(rest)); }
    if StartIn(sky, issued.ts, issued.deadline) { StartSettlesCredited(sky, issued, Ticks(rest)); }
    if steps[|steps| - 1].Tick? { assert k + 1 < |steps| && rest[|rest| - 1] == steps[|steps| - 1]; }
  }

  /** The verdict on what step `k` issued, if it was dry then or rain began in its window: the
      predictions whose verdict does not depend on the ticks. */
  ghost predicate FollowsSky(sky: Sky, steps: seq<Step>, p: Prediction, k: int)
    requires 0 <= k < |steps| && steps[k].Foretold?
  {
    var issued := Issued(steps[k]);
    !Raining(sky, issued.ts) || StartIn(sky, issued.ts, issued.deadline) ==>
      && (p.status == Credited ==> StartIn(sky, issued.ts, issued.deadline))
      && (p.status == Burned ==> !StartIn(sky, issued.ts, issued.deadline))
      && (steps[|steps| - 1].Tick? && steps[|steps| - 1].now > issued.deadline ==> p.status != Open)
  }

  // -------------------------------------------------------------------------- the agent

  class Agent {
    const sky: Sky
    var predictions: seq<Prediction>
    var sources: map<string, Score>
    var wetAt: int
    var waterings: nat
    /** Predictions trimmed from the list, oldest first. */
    ghost var trimmed: seq<Prediction>

    ghost function View(): Books
      reads this
    {
      Books(trimmed, predictions, sources)
    }

    ghost predicate Valid()
      reads this
    {
      Conserved(trimmed + predictions, sources)
    }

    constructor (sky: Sky, wetAt: int)
      ensures Valid() && View() == BLANK && this.wetAt == wetAt && this.sky == sky
    {
      this.sky, this.wetAt := sky, wetAt;
      predictions, sources, waterings, trimmed := [], map[], 0, [];
      new;
      assert forall who :: Count([], who, Credited) == 0 && Count([], who, Burned) == 0;
      assert trimmed + predictions == [];
    }

    /** `/predict`; `secs` is the accepted window in seconds. */
    method Predict(who: string, now: int, secs: nat) returns (recorded: bool)
      requires Valid()
      modifies this`predictions, this`sources
      ensures Valid() && View() == Next(sky, old(View()), Foretold(who, now, secs))
      ensures recorded <==> ScoreOf(old(sources), who).burns < 3
      ensures predictions == old(predictions) + if recorded then [Prediction(now, who, now + secs, Open)] else []
    {
      hide Conserved, Run;
      DefaultConserves(trimmed + predictions, sources, who);
      if who !in sources { sources := sources[who := Score(0, 0)]; }
      assert sources == old(sources)[who := ScoreOf(old(sources), who)];
      if sources[who].burns >= BURNS_TO_IGNORE { return false; }
      var p := Prediction(now, who, now + secs, Open);
      OpenConserves(trimmed + predictions, sources, p);
      assert trimmed + (predictions + [p]) == trimmed + predictions + [p];
      predictions := predictions + [p];
      recorded := true;
    }

    /** `soil_now`: finds the last rain start by asking for the next one until there is none. */
    method SoilNow(now: int) returns (soil: int)
      modifies this`wetAt
      ensures wetAt == WetAfter(sky, old(wetAt), now) && soil == Reading(wetAt, now)
    {
      var wet := wetAt;
      var rs := RainStartsBetween(sky, wet, now);
      FirstStartIs(sky, wet, now);
      while rs.Some?
        invariant wetAt == old(wetAt) <= wet && rs == FirstStart(sky, wet, now)
        invariant wet == old(wetAt) || (wet <= now && RainStart(sky, wet))
        decreases now - wet
      {
        FirstStartIs(sky, wet, now);
        wet := rs.value;
        rs := RainStartsBetween(sky, wet, now);
      }
      FirstStartIs(sky, wet, now);
      NoneLater(sky, wetAt, wet, now);
      if Raining(sky, now) { wet := now; }
      wetAt := Max(wetAt, wet);
      soil := Max(0, 100 - Dryness(now - wetAt));
    }

    /** One decision tick: settle, probe, water or hold, trim. `trusted` is whether a live
        forecast of the covenant partner promises rain. */
    method Decide(now: int, trusted: bool)
      requires Valid()
      modifies this
      ensures Valid() && View() == Next(sky, old(View()), Tick(now))
      ensures var probed := WetAfter(sky, old(wetAt), now);
        var soil := Reading(probed, now);
        var water := soil < 40 && !(soil >= 15 && trusted);
        wetAt == (if water then now else probed) && waterings == old(waterings) + if water then 1 else 0
    {
      TickConserves(sky, trimmed, predictions, sources, now);
      SettleAll(now);
      var soil := SoilNow(now);
      if soil < WATER_BELOW && !(soil >= STRESS_BELOW && trusted) {
        wetAt := now;
        waterings := waterings + 1;
      }
      Trim();
    }

    /** `predictions[-100:]`. */
    method Trim()
      modifies this`predictions, this`trimmed
      ensures View() == Trimmed(old(View())) && trimmed + predictions == old(trimmed + predictions)
      ensures |predictions| == Min(|old(predictions)|, 100)
    {
      if |predictions| > KEEP {
        var cut := |predictions| - KEEP;
        assert trimmed + predictions[..cut] + predictions[cut..] == trimmed + predictions;
        trimmed, predictions := trimmed + predictions[..cut], predictions[cut..];
      }
    }

    /** The settlement loop: every open prediction whose window has closed, or whose rain
        has come. */
    method SettleAll(now: int)
      modifies this`predictions, this`sources
      ensures predictions == SettleList(sky, old(predictions), now)
      ensures sources == MarkList(sky, old(predictions), old(sources), now)
    {
      ghost var all := predictions;
      var i := 0;
      while i < |predictions|
        invariant 0 <= i <= |predictions| == |all|
        invariant forall j | 0 <= j < i :: predictions[j] == Settle(sky, all[j], now)
        invariant forall j | i <= j < |all| :: predictions[j] == all[j]
        invariant sources == MarkList(sky, all[..i], old(sources), now)
      {
        assert all[..i + 1][..i] == all[..i];
        var p := SettleOne(predictions[i], now);
        predictions := predictions[i := p];
        i := i + 1;
      }
      assert all[..i] == all;
    }

    method SettleOne(p: Prediction, now: int) returns (r: Prediction)
      modifies this`sources
      ensures r == Settle(sky, p, now) && sources == Mark(old(sources), p.who, p.status, r.status)
    {
      r := p;
      if p.status != Open { return; }
      if p.who !in sources { sources := sources[p.who := Score(0, 0)]; }
      var s := sources[p.who];
      var started := RainStartsBetween(sky, p.ts, Min(now, p.deadline));
      if started.Some? || (Raining(sky, now) && now <= p.deadline) {
        r := p.(status := Credited);
        sources := sources[p.who := s.(credits := s.credits + 1)];
      } else if now > p.deadline {
        r := p.(status := Burned);
        sources := sources[p.who := s.(burns := s.burns + 1)];
      }
    }
  }

  /** The walk over rain starts ends at the last one. */
  lemma NoneLater(sky: Sky, wet: int, last: int, now: int)
    requires wet <= last && !StartIn(sky, last, now)
    requires last == wet || (last <= now && RainStart(sky, last))
    ensures LastStart(sky, wet, now / SLOT, now) == last
  {
    LastStartIs(sky, wet, now / SLOT, now);
    var s := LastStart(sky, wet, now / SLOT, now);
    assert last <= now ==> last / SLOT <= now / SLOT;
  }
}
