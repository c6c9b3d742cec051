/** When reactions end an act: by words, by the poller's reading of hands and of quiet -- and
    the acts that no reaction reaches. */
module Reactions {
  import opened Declaration
  import opened ReactionRules
  import opened Actuation
  import opened Wrappers

  // -------------------------------------------------------------------------------- words

  /** The thread of the act open on `s` has something new to say. */
  predicate Spoken(w: World, s: string, threads: map<string, ThreadView>) {
    && s in w.mem && w.mem[s].act.Some? && ThreadOf(threads, w.mem[s].act.value).Some?
    && Reacted(ThreadOf(threads, w.mem[s].act.value).value, w.mem[s].act.value)
  }

  predicate NoSaid(w: World, s: string, threads: map<string, ThreadView>) {
    Spoken(w, s, threads) && SaidNo(ThreadOf(threads, w.mem[s].act.value).value, w.mem[s].act.value)
  }

  /** Words end an act whenever they come, inside the reaction window or after it:
      exactly when the act's thread has something new and it is no no, or a no whose revert
      works. A no then costs the candidate and anything else passes it. */
  lemma WordsEnd(cfg: Config, w: World, s: string, now: int, threads: map<string, ThreadView>, gated: bool, reverts: bool)
    requires s in cfg.acts && s in w.mem && w.mem[s].act.Some?
    ensures var x, act := Next(cfg, w, Heed(s, now, threads, gated, reverts)), w.mem[s].act.value;
      && (Mem(x, s).act.None? <==> Spoken(w, s, threads) && (NoSaid(w, s, threads) ==> reverts))
      && (Mem(x, s).act.None? ==> x.trials == w.trials + TrialFor(act, !NoSaid(w, s, threads)))
      && (Mem(x, s).act.Some? ==> x == w)
  {
    hide BucketOf, Reacted, SaidNo;
    var m := HeedMove(s, w.mem[s], now, threads, gated, reverts);
    if m == Stay(w.mem[s]) {
      assert w.mem[s := w.mem[s]] == w.mem && w.trials + [] == w.trials && w.history + [] == w.history;
    }
  }

  /** MAIN. Undo is always available: whatever happened before, an act a thread opened names a
      declared action that takes it back, and a no to it does so if that command works. */
  lemma {:induction false} UndoAvailable(cfg: Config, w: World, steps: seq<Step>, s: string, now: int,
                                         threads: map<string, ThreadView>, gated: bool)
    requires Honest(cfg) && Fresh(w) && NoSaid(Run(cfg, w, steps), s, threads)
    ensures s in cfg.acts && Undoable(cfg.acts[s], OpenAct(Run(cfg, w, steps), s))
    ensures TakesBack(cfg, Run(cfg, w, steps), Heed(s, now, threads, gated, true))
  {
    FreshAccounts(cfg, w);
    RunAccounts(cfg, w, steps);
    var v := Run(cfg, w, steps);
    assert Mem(v, s).act.Some?;
    assert Told(s, HeedMove(s, v.mem[s], now, threads, gated, true)) == [Undone(s, OpenAct(v, s), now)];
  }

  /** A no undoes the act or, when the revert fails, changes nothing at all. */
  lemma NoIsHeeded(cfg: Config, w: World, s: string, threads: map<string, ThreadView>, now: int, gated: bool, reverts: bool)
    requires s in cfg.acts && NoSaid(w, s, threads)
    ensures var x := Next(cfg, w, Heed(s, now, threads, gated, reverts));
      if reverts then Mem(x, s).act.None? && x.history == w.history + [Undone(s, w.mem[s].act.value, now)] else x == w
  {
    hide BucketOf, Reacted, SaidNo, ThreadOf;
    var m := HeedMove(s, w.mem[s], now, threads, gated, reverts);
    if reverts {
      assert Told(s, m) == [Undone(s, w.mem[s].act.value, now)];
    } else {
      assert w.mem[s := w.mem[s]] == w.mem && w.trials + [] == w.trials && w.history + [] == w.history;
    }
  }

  // ------------------------------------------------------------------- one poll after a no

  /** The poller's reading of silence: the window has passed and the change is still there. */
  predicate Ripe(cfg: Config, w: World, s: string, now: int, healthy: bool)
    requires s in cfg.acts
  {
    var st := Mem(w, s);
    && healthy && now - st.polledAt >= cfg.pollSecs
    && st.act.Some? && now - st.act.value.at > cfg.windowSecs
    && Truth(cfg, w, s) == st.act.value.target == st.bucket && st.bucket != ""
  }

  lemma PollPasses(cfg: Config, w: World, s: string, now: int, healthy: bool, act: PendingAct)
    requires s in cfg.acts && Mem(w, s).act == Some(act)
    ensures Stood(s, act) in Since(w, Next(cfg, w, Poll(s, now, healthy))) <==> Ripe(cfg, w, s, now, healthy)
  {
    hide BucketOf, RulesAfter;
    var m := PollMove(cfg, s, Mem(w, s), now, Seen(cfg, w, s, healthy));
    assert Since(w, Next(cfg, w, Poll(s, now, healthy))) == Told(s, m);
    if m.verdict.Some? { assert Told(s, m)[|Told(s, m)| - 1] == m.verdict.value; }
  }

  lemma RipePasses(cfg: Config, w: World, s: string, now: int, healthy: bool, act: PendingAct)
    requires s in cfg.acts && Ripe(cfg, w, s, now, healthy) && Mem(w, s).act == Some(act) && act.candidate != ""
    ensures Next(cfg, w, Poll(s, now, healthy)).trials == w.trials + [Trial(act.candidate, true)]
  {
    hide BucketOf, RulesAfter;
    var m := PollMove(cfg, s, Mem(w, s), now, Seen(cfg, w, s, healthy));
    assert m.trials == [Trial(act.candidate, true)];
  }

  lemma PollPassesNothing(cfg: Config, w: World, s: string, now: int, healthy: bool, act: PendingAct)
    requires s in cfg.acts && Mem(w, s).act.None?
    ensures Stood(s, act) !in Since(w, Next(cfg, w, Poll(s, now, healthy)))
    ensures w.history <= Next(cfg, w, Poll(s, now, healthy)).history
  {
    hide BucketOf, RulesAfter;
    var m := PollMove(cfg, s, Mem(w, s), now, Seen(cfg, w, s, healthy));
    assert Since(w, Next(cfg, w, Poll(s, now, healthy))) == Told(s, m);
  }

  /** One poll after a no that was heard: it calls the act consented to exactly when the revert
      failed and the act is ripe. Over whole runs: `UnhonouredNo`. */
  lemma HeardNoCanPass(cfg: Config, w: World, s: string, threads: map<string, ThreadView>, now: int, gated: bool,
                       reverts: bool, later: int, healthy: bool)
    requires s in cfg.acts && NoSaid(w, s, threads)
    ensures var x := Next(cfg, w, Heed(s, now, threads, gated, reverts));
            var y := Next(cfg, x, Poll(s, later, healthy));
      Stood(s, w.mem[s].act.value) in Since(w, y) <==> !reverts && Ripe(cfg, w, s, later, healthy)
  {
    hide Next, Ripe, ThreadOf;
    NoIsHeeded(cfg, w, s, threads, now, gated, reverts);
    var act, x := w.mem[s].act.value, Next(cfg, w, Heed(s, now, threads, gated, reverts));
    if reverts {
      var y := Next(cfg, x, Poll(s, later, healthy));
      PollPassesNothing(cfg, x, s, later, healthy, act);
      assert Since(w, y) == [Undone(s, act, now)] + Since(x, y);
    } else {
      PollPasses(cfg, w, s, later, healthy, act);
    }
  }

  // ------------------------------------------------------------------------ witness runs

  const SAID_NO: map<string, ThreadView> := map["thread-0001" := ThreadView([Answer(true, false)], [], None)]

  /** A surface polled and tended in one tick, with the act still standing. */
  function Tended(cfg: Config, s: string, target: string): World
    requires s in cfg.acts
  {
    Next(cfg, Next(cfg, NOWHERE, Poll(s, cfg.pollSecs, true)), SomeNeed(s, target, cfg.pollSecs))
  }

  function TendedAct(cfg: Config, s: string, target: string): PendingAct
    requires s in cfg.acts
  {
    ActOf(cfg, Next(cfg, NOWHERE, Poll(s, cfg.pollSecs, true)), s, target, cfg.pollSecs)
  }

  lemma TendedIs(cfg: Config, s: string, target: string)
    requires Honest(cfg) && Sane(cfg) && s in cfg.acts && target in Names(cfg.acts[s]) && target != BucketOf(cfg.acts[s], map[])
    ensures var v := Tended(cfg, s, target);
      && s in v.mem && v.mem[s] == SurfaceState(target, cfg.pollSecs, 0, Some(TendedAct(cfg, s, target)))
      && Truth(cfg, v, s) == target && v.trials == []
    ensures NoSaid(Tended(cfg, s, target), s, SAID_NO)
  {
    hide Next;
    FirstSight(cfg, NOWHERE, s, cfg.pollSecs);
    var u := Next(cfg, NOWHERE, Poll(s, cfg.pollSecs, true));
    assert Look(u, s) == map[];
    NamesAreActions(cfg.acts[s], target);
    ActLands(cfg, u, s, target, cfg.pollSecs);
    var act := TendedAct(cfg, s, target);
    var replies := NewAnswers(SAID_NO["thread-0001"], act);
    assert replies == [Answer(true, false)] && Answer(true, false) in replies;
  }

  /** A no that comes any time after the window, while the device cannot be read, still fails
      the candidate. */
  lemma {:induction false} LateNoCounts(cfg: Config, s: string, target: string, late: nat) returns (steps: seq<Step>)
    requires Honest(cfg) && Sane(cfg) && s in cfg.acts
    requires target in Names(cfg.acts[s]) && target != BucketOf(cfg.acts[s], map[]) && late > cfg.windowSecs
    ensures NobodyTouched(steps) && InTicks(steps) && |steps| == 4
    ensures steps[1] == SomeNeed(s, target, cfg.pollSecs)
    ensures steps[3] == Heed(s, cfg.pollSecs + late, SAID_NO, false, true)
    ensures Trial("candidate-0001", false) in Run(cfg, NOWHERE, steps).trials
  {
    hide Next, Run, BucketOf;
    var p := cfg.pollSecs;
    var first, tend, blind := Poll(s, p, true), SomeNeed(s, target, p), Poll(s, p + late, false);
    var heed := Heed(s, p + late, SAID_NO, false, true);
    steps := [first, tend, blind, heed];
    assert PollsAt(steps[0], s, steps[1].now) && PollsAt(steps[2], s, steps[3].now);
    TendedIs(cfg, s, target);
    var v := Tended(cfg, s, target);
    BlindPoll(cfg, v, s, p + late);
    var x := Next(cfg, v, blind);
    assert NoSaid(x, s, SAID_NO);
    WordsEnd(cfg, x, s, p + late, SAID_NO, false, true);
    RunOfFour(cfg, NOWHERE, first, tend, blind, heed);
    assert Next(cfg, x, heed).trials[0] == Trial("candidate-0001", false);
  }

  lemma BlindPoll(cfg: Config, w: World, s: string, now: int)
    requires s in cfg.acts && s in w.mem
    ensures var x := Next(cfg, w, Poll(s, now, false));
      s in x.mem && x.mem[s].act == w.mem[s].act && x.trials == w.trials
  {
    hide BucketOf;
    assert w.trials + [] == w.trials;
  }

  // -------------------------------------------------------------------- when polling ends an act

  /** The last poll that was due, and the times of those of them that could read the device. */
  datatype Paced = Paced(at: int, times: seq<int>)

  function Reads(cfg: Config, s: string, polledAt: int, steps: seq<Step>): Paced
    decreases |steps|
  {
    if steps == [] then Paced(polledAt, [])
    else
      var p, e := Reads(cfg, s, polledAt, steps[..|steps| - 1]), steps[|steps| - 1];
      if e.Poll? && e.surface == s && e.now - p.at >= cfg.pollSecs
      then Paced(e.now, p.times + if e.healthy then [e.now] else []) else p
  }

  predicate Late(cfg: Config, act: PendingAct, t: int) { t - act.at > cfg.windowSecs }

  /** When readings at these times end the act, the device being in bucket `truth` throughout.
      Where the act put it: at the first late reading at which that was already known. Anywhere
      else: at the very first reading, if that is news and still inside the window. */
  predicate EndsByPolling(cfg: Config, st: SurfaceState, truth: string, act: PendingAct, times: seq<int>) {
    if truth == act.target then
      exists i :: 0 <= i < |times| && Late(cfg, act, times[i]) && (i > 0 || st.bucket == truth)
    else times != [] && !Late(cfg, act, times[0]) && st.bucket != "" && st.bucket != truth
  }

  /** Anything but a hand or a partner on this surface: all that the loop does anywhere, all
      that humans do to the rules, and whatever anyone does to other surfaces. */
  predicate HandsOff(step: Step, s: string) {
    match step
    case Touched(x, _, _) => x != s
    case ByHand(x, _, _, _) => x != s
    case Partner(x, _, _, _) => x != s
    case _ => true
  }

  ghost predicate AllHandsOff(steps: seq<Step>, s: string) { forall i | 0 <= i < |steps| :: HandsOff(steps[i], s) }

  /** The loop hears words that end this act: something new that is no no, or a no whose revert
      works. */
  predicate WordsEndIt(step: Step, s: string, act: PendingAct) {
    && step.Heed? && step.surface == s && ThreadOf(step.threads, act).Some?
    && var t := ThreadOf(step.threads, act).value;
       Reacted(t, act) && (SaidNo(t, act) ==> step.reverts)
  }

  ghost predicate WordsIn(steps: seq<Step>, s: string, act: PendingAct) {
    exists i :: 0 <= i < |steps| && WordsEndIt(steps[i], s, act)
  }

  predicate EndsIt(e: Event, s: string, act: PendingAct) { Ends(e) && e.surface == s && e.act == act }

  /** How readings end it: stood, if the device is where the act put it, and else undone. */
  predicate EndsSo(e: Event, s: string, act: PendingAct, truth: string) {
    EndsIt(e, s, act) && (if truth == act.target then e.Stood? else e.Undone?)
  }

  ghost predicate EndedSince(w: World, v: World, s: string, act: PendingAct) {
    exists e | e in Since(w, v) :: EndsIt(e, s, act)
  }

  /** What is remembered of the surface after those polls, while its act is open. */
  function Left(st: SurfaceState, truth: string, p: Paced): SurfaceState {
    st.(polledAt := p.at, bucket := if p.times == [] then st.bucket else truth)
  }

  /** The act is still open, and the surface is as the readings so far have left it. */
  predicate StillOpen(cfg: Config, w: World, v: World, s: string, p: Paced)
    requires s in cfg.acts
  {
    && Truth(cfg, v, s) == Truth(cfg, w, s)
    && Mem(v, s) == Left(Mem(w, s), Truth(cfg, w, s), p)
  }

  /** A due and healthy poll of a surface that still is as the readings left it. */
  lemma ReadingOutcome(cfg: Config, st: SurfaceState, truth: string, s: string, p: Paced, now: int, act: PendingAct)
    requires st.act == Some(act) && truth != "" && now - p.at >= cfg.pollSecs
    requires !EndsByPolling(cfg, st, truth, act, p.times)
    ensures var m := PollMove(cfg, s, Left(st, truth, p), now, Some(truth));
      if EndsByPolling(cfg, st, truth, act, p.times + [now])
      then m.verdict.Some? && EndsSo(m.verdict.value, s, act, truth)
      else m.verdict.None? && m.st == Left(st, truth, Paced(now, p.times + [now]))
  {
    ReadsGrow(cfg, st, truth, act, p.times, now);
  }

  lemma PollOutcome(cfg: Config, w: World, v: World, s: string, p: Paced, now: int, healthy: bool, act: PendingAct)
    requires Honest(cfg) && s in cfg.acts && Mem(w, s).act == Some(act) && StillOpen(cfg, w, v, s, p)
    requires !EndsByPolling(cfg, Mem(w, s), Truth(cfg, w, s), act, p.times)
    ensures var x := Next(cfg, v, Poll(s, now, healthy));
      var q := if now - p.at >= cfg.pollSecs then Paced(now, p.times + if healthy then [now] else []) else p;
      if EndsByPolling(cfg, Mem(w, s), Truth(cfg, w, s), act, q.times)
      then exists e | e in Since(v, x) :: EndsSo(e, s, act, Truth(cfg, w, s))
      else StillOpen(cfg, w, x, s, q) && forall e | e in Since(v, x) :: !EndsIt(e, s, act)
  {
    hide BucketOf, RulesAfter, EndsByPolling;
    RevertMapIsClosed(cfg.acts[s], Look(w, s));
    var m := PollMove(cfg, s, Mem(v, s), now, Seen(cfg, v, s, healthy));
    assert Since(v, Next(cfg, v, Poll(s, now, healthy))) == Told(s, m);
    assert p.times + [] == p.times;
    if healthy && now - p.at >= cfg.pollSecs {
      ReadingOutcome(cfg, Mem(w, s), Truth(cfg, w, s), s, p, now, act);
      hide PollMove;
      if m.verdict.Some? { assert Told(s, m)[|Told(s, m)| - 1] == m.verdict.value; }
    }
  }

  /** One reading more ends the act exactly when it is the one that does. */
  lemma ReadsGrow(cfg: Config, st: SurfaceState, truth: string, act: PendingAct, times: seq<int>, now: int)
    ensures EndsByPolling(cfg, st, truth, act, times + [now]) <==>
      EndsByPolling(cfg, st, truth, act, times)
      || if truth == act.target then Late(cfg, act, now) && (times != [] || st.bucket == truth)
         else times == [] && !Late(cfg, act, now) && st.bucket != "" && st.bucket != truth
  {
    var more := times + [now];
    assert more[|times|] == now;
    if truth == act.target && EndsByPolling(cfg, st, truth, act, times) {
      var i :| 0 <= i < |times| && Late(cfg, act, times[i]) && (i > 0 || st.bucket == truth);
      assert more[i] == times[i];
    }
  }

  lemma SilentHeed(s: string, st: SurfaceState, now: int, threads: map<string, ThreadView>, gated: bool, reverts: bool, act: PendingAct)
    requires st.act == Some(act) && !WordsEndIt(Heed(s, now, threads, gated, reverts), s, act)
    ensures HeedMove(s, st, now, threads, gated, reverts) == Stay(st)
  {
    hide Reacted, SaidNo, ThreadOf;
  }

  /** Whatever is neither a poll of the surface, nor words that end its act, nor a hand on it
      leaves the surface and its act alone: heeds that hear nothing, or a no they cannot
      honour, included. */
  lemma LoopLeavesAct(cfg: Config, v: World, s: string, step: Step, act: PendingAct)
    requires s in cfg.acts && Mem(v, s).act == Some(act) && HandsOff(step, s)
    requires !(step.Poll? && step.surface == s) && !WordsEndIt(step, s, act)
    ensures var x := Next(cfg, v, step);
      Mem(x, s) == Mem(v, s) && Look(x, s) == Look(v, s) && forall e | e in Since(v, x) :: !EndsIt(e, s, act)
  {
    if MoveOf(cfg, v, step).Some? {
      QuietMove(cfg, v, s, step, act);
      MoveNamesItsSurface(cfg, v, step);
      hide MoveOf, Truth, RulesAfter, WordsEndIt;
      var (x, m) := MoveOf(cfg, v, step).value;
      assert Since(v, Next(cfg, v, step)) == Told(x, m);
    } else {
      hide MoveOf, Truth, WordsEndIt;
    }
  }

  lemma QuietMove(cfg: Config, v: World, s: string, step: Step, act: PendingAct)
    requires s in cfg.acts && Mem(v, s).act == Some(act) && HandsOff(step, s) && MoveOf(cfg, v, step).Some?
    requires !(step.Poll? && step.surface == s) && !WordsEndIt(step, s, act)
    ensures var (x, m) := MoveOf(cfg, v, step).value; x == s ==> m == Stay(Mem(v, s))
  {
    if step.Heed? && step.surface == s { SilentHeed(s, v.mem[s], step.now, step.threads, step.gated, step.reverts, act); }
    hide BucketOf, PollMove, HeedMove, HandMove, WordsEndIt;
  }

  lemma WordsEndAct(cfg: Config, v: World, s: string, step: Step, act: PendingAct)
    requires s in cfg.acts && Mem(v, s).act == Some(act) && WordsEndIt(step, s, act)
    ensures exists e | e in Since(v, Next(cfg, v, step)) :: EndsIt(e, s, act)
  {
    hide BucketOf, RulesAfter, Reacted, SaidNo, ThreadOf;
    var m := HeedMove(s, v.mem[s], step.now, step.threads, step.gated, step.reverts);
    assert m.verdict.Some? && m.adjusted.None? && EndsIt(m.verdict.value, s, act);
    assert Since(v, Next(cfg, v, step)) == [m.verdict.value];
    assert m.verdict.value in Since(v, Next(cfg, v, step));
  }

  lemma StepGrows(cfg: Config, v: World, step: Step)
    ensures v.history <= Next(cfg, v, step).history
  {
    hide MoveOf, RulesAfter;
  }

  lemma SinceGrows(w: World, v: World, x: World, s: string, act: PendingAct)
    requires w.history <= v.history <= x.history
    ensures EndedSince(w, x, s, act) <==> EndedSince(w, v, s, act) || exists e | e in Since(v, x) :: EndsIt(e, s, act)
  {
    assert Since(w, x) == Since(w, v) + Since(v, x);
  }

  lemma {:induction false} RunGrows(cfg: Config, w: World, steps: seq<Step>)
    ensures w.history <= Run(cfg, w, steps).history
    decreases |steps|
  {
    if steps != [] {
      RunGrows(cfg, w, steps[..|steps| - 1]);
      StepGrows(cfg, Run(cfg, w, steps[..|steps| - 1]), steps[|steps| - 1]);
    }
  }

  /** Where the run stands with the act: ended, by one of the two, or still as it was. */
  ghost predicate Settled(cfg: Config, w: World, steps: seq<Step>, v: World, s: string, act: PendingAct)
    requires s in cfg.acts
  {
    var p := Reads(cfg, s, Mem(w, s).polledAt, steps);
    && (EndedSince(w, v, s, act) <==>
          WordsIn(steps, s, act) || EndsByPolling(cfg, Mem(w, s), Truth(cfg, w, s), act, p.times))
    && (!EndedSince(w, v, s, act) ==> StillOpen(cfg, w, v, s, p))
  }

  /** MAIN. What ends an open act: over any run in which nobody's hand and no partner is on its
      surface, whatever the loop hears, polls and tends and whatever happens to other
      surfaces, the act is ended if and only if words heard end it or the due and healthy
      readings do; and until then it stays open, with nothing new opened there. */
  lemma {:induction false} PollingEnds(cfg: Config, w: World, steps: seq<Step>, s: string, act: PendingAct)
    requires Honest(cfg) && s in cfg.acts && Mem(w, s).act == Some(act) && AllHandsOff(steps, s)
    ensures Settled(cfg, w, steps, Run(cfg, w, steps), s, act)
    decreases |steps|
  {
    if steps != [] {
      var before, step := steps[..|steps| - 1], steps[|steps| - 1];
      assert steps == before + [step];
      RunAppend(cfg, w, before, step);
      PollingEnds(cfg, w, before, s, act);
      RunGrows(cfg, w, before);
      OneStepMore(cfg, w, before, step, s, act);
    }
  }

  lemma WordsMore(before: seq<Step>, step: Step, s: string, act: PendingAct)
    ensures WordsIn(before + [step], s, act) <==> WordsIn(before, s, act) || WordsEndIt(step, s, act)
  {
    hide WordsEndIt;
    var all := before + [step];
    assert all[|before|] == step;
    if i :| 0 <= i < |before| && WordsEndIt(before[i], s, act) { assert all[i] == before[i]; }
  }

  lemma {:induction false} OneStepMore(cfg: Config, w: World, before: seq<Step>, step: Step, s: string, act: PendingAct)
    requires Honest(cfg) && s in cfg.acts && Mem(w, s).act == Some(act) && HandsOff(step, s)
    requires w.history <= Run(cfg, w, before).history && Settled(cfg, w, before, Run(cfg, w, before), s, act)
    ensures Settled(cfg, w, before + [step], Next(cfg, Run(cfg, w, before), step), s, act)
  {
    assert (before + [step])[..|before|] == before;
    hide Run, Next, EndsByPolling, EndedSince, WordsIn, WordsEndIt, HandsOff;
    var v, p := Run(cfg, w, before), Reads(cfg, s, Mem(w, s).polledAt, before);
    StepGrows(cfg, v, step);
    SinceGrows(w, v, Next(cfg, v, step), s, act);
    WordsMore(before, step, s, act);
    assert p.times + [] == p.times;
    if EndedSince(w, v, s, act) {
      ReadsGrow(cfg, Mem(w, s), Truth(cfg, w, s), act, p.times, step.now);
    } else if step.Poll? && step.surface == s {
      NoWordsInPoll(step, s, act);
      PollOutcome(cfg, w, v, s, p, step.now, step.healthy, act);
    } else if WordsEndIt(step, s, act) {
      WordsEndAct(cfg, v, s, step, act);
    } else {
      LoopLeavesAct(cfg, v, s, step, act);
    }
  }

  lemma NoWordsInPoll(step: Step, s: string, act: PendingAct)
    requires step.Poll?
    ensures !WordsEndIt(step, s, act)
  {}

  /** MAIN. A partner can strand an act: once it has moved the surface into a bucket, the loop
      ends the act, however long it goes on and whatever happens elsewhere, if and only if
      words that end it are heard, or the bucket is where the act had put it and a due,
      healthy reading comes after the window. Until then no need or rule acts there. */
  lemma {:induction false} PartnerStrands(cfg: Config, w: World, s: string, target: string, now: int, steps: seq<Step>)
    requires Honest(cfg) && s in cfg.acts && target in Names(cfg.acts[s]) && Mem(w, s).act.Some? && AllHandsOff(steps, s)
    ensures var x, act := Next(cfg, w, Partner(s, now, target, true)), Mem(w, s).act.value;
      var p := Reads(cfg, s, Mem(w, s).polledAt, steps);
      && (EndedSince(x, Run(cfg, x, steps), s, act) <==>
            WordsIn(steps, s, act)
            || (target == act.target && exists i :: 0 <= i < |p.times| && Late(cfg, act, p.times[i])))
      && (!EndedSince(x, Run(cfg, x, steps), s, act) ==> Mem(Run(cfg, x, steps), s).act == Some(act))
  {
    hide Next, Run, BucketOf, EndedSince, WordsIn, EndsByPolling;
    var x, act := Next(cfg, w, Partner(s, now, target, true)), Mem(w, s).act.value;
    PartnerMoves(cfg, w, s, target, now);
    PollingEnds(cfg, x, steps, s, act);
    var p := Reads(cfg, s, Mem(x, s).polledAt, steps);
    KnownPlace(cfg, Mem(x, s), target, act, p.times);
    assert Settled(cfg, x, steps, Run(cfg, x, steps), s, act);
    assert EndedSince(x, Run(cfg, x, steps), s, act) <==> WordsIn(steps, s, act) || EndsByPolling(cfg, Mem(x, s), target, act, p.times);
    assert p == Reads(cfg, s, Mem(w, s).polledAt, steps);
  }

  lemma KnownPlace(cfg: Config, st: SurfaceState, truth: string, act: PendingAct, times: seq<int>)
    requires st.bucket == truth
    ensures EndsByPolling(cfg, st, truth, act, times) <==>
      truth == act.target && exists i :: 0 <= i < |times| && Late(cfg, act, times[i])
  {}

  lemma PartnerMoves(cfg: Config, w: World, s: string, target: string, now: int)
    requires Honest(cfg) && s in cfg.acts && target in Names(cfg.acts[s])
    ensures var x := Next(cfg, w, Partner(s, now, target, true));
      Mem(x, s) == Mem(w, s).(bucket := target) && Truth(cfg, x, s) == target
  {
    hide BucketOf, RulesAfter;
    NamesAreActions(cfg.acts[s], target);
    assert BucketOf(cfg.acts[s], cfg.effect(s, target, Look(w, s))) == target;
  }

  // ------------------------------------------------------------------- a no never honoured

  lemma {:induction false} PollingVerdict(cfg: Config, w: World, steps: seq<Step>, s: string, act: PendingAct)
    requires Honest(cfg) && s in cfg.acts && Mem(w, s).act == Some(act) && AllHandsOff(steps, s) && !WordsIn(steps, s, act)
    requires EndsByPolling(cfg, Mem(w, s), Truth(cfg, w, s), act, Reads(cfg, s, Mem(w, s).polledAt, steps).times)
    ensures exists e | e in Since(w, Run(cfg, w, steps)) :: EndsSo(e, s, act, Truth(cfg, w, s))
    decreases |steps|
  {
    if steps != [] {
      var before, step := steps[..|steps| - 1], steps[|steps| - 1];
      assert steps == before + [step];
      WordsMore(before, step, s, act);
      var v, x, p := Run(cfg, w, before), Run(cfg, w, steps), Reads(cfg, s, Mem(w, s).polledAt, before);
      PollingEnds(cfg, w, before, s, act);
      RunGrows(cfg, w, before);
      StepGrows(cfg, v, step);
      hide Run, Next, WordsIn, EndsByPolling;
      assert Since(w, x) == Since(w, v) + Since(v, x);
      if EndsByPolling(cfg, Mem(w, s), Truth(cfg, w, s), act, p.times) {
        PollingVerdict(cfg, w, before, s, act);
      } else {
        assert p.times + [] == p.times;
        hide Reads;
        PollOutcome(cfg, w, v, s, p, step.now, step.healthy, act);
      }
    }
  }

  /** MAIN. A no that was heard is not always honoured: over any run in which no revert works
      (every no in it is one whose revert fails, and nothing else new is said) and the surface
      is left where the act put it, however often the revert is retried, the candidate is
      passed in the end if and only if a due and healthy reading comes after the window that
      is not the first to find the device there. */
  lemma {:induction false} UnhonouredNo(cfg: Config, w: World, steps: seq<Step>, s: string, act: PendingAct)
    requires Honest(cfg) && s in cfg.acts && Mem(w, s).act == Some(act) && AllHandsOff(steps, s) && !WordsIn(steps, s, act)
    requires Truth(cfg, w, s) == act.target
    ensures Stood(s, act) in Since(w, Run(cfg, w, steps)) <==>
      EndsByPolling(cfg, Mem(w, s), act.target, act, Reads(cfg, s, Mem(w, s).polledAt, steps).times)
  {
    hide Run, EndsByPolling, WordsIn;
    PollingEnds(cfg, w, steps, s, act);
    if EndsByPolling(cfg, Mem(w, s), act.target, act, Reads(cfg, s, Mem(w, s).polledAt, steps).times) {
      PollingVerdict(cfg, w, steps, s, act);
    } else {
      assert EndsIt(Stood(s, act), s, act);
    }
  }

  const HOUR: int := 3600

  /** A tick an hour: a poll that finds the device, and a no whose revert fails. */
  function Hourly(s: string, from: int, n: nat): seq<Step> {
    seq(2 * n, i requires 0 <= i < 2 * n =>
      if i % 2 == 0 then Poll(s, from + (i / 2 + 1) * HOUR, true) else Heed(s, from + (i / 2 + 1) * HOUR, SAID_NO, false, false))
  }

  lemma HourlyGrows(s: string, from: int, n: nat)
    requires n > 0
    ensures var t := from + n * HOUR;
      Hourly(s, from, n) == Hourly(s, from, n - 1) + [Poll(s, t, true)] + [Heed(s, t, SAID_NO, false, false)]
  {
    var a, b := Hourly(s, from, n), Hourly(s, from, n - 1);
    assert forall i | 0 <= i < 2 * n - 2 :: a[i] == b[i];
    assert (2 * n - 2) / 2 + 1 == n && (2 * n - 1) / 2 + 1 == n && (2 * n - 2) % 2 == 0 && (2 * n - 1) % 2 == 1;
  }

  lemma {:induction false} HourlyReads(cfg: Config, s: string, from: int, n: nat)
    requires Sane(cfg)
    ensures var p := Reads(cfg, s, from, Hourly(s, from, n));
      p.at == from + n * HOUR && (n > 0 ==> p.times != [] && p.times[|p.times| - 1] == p.at)
  {
    if n > 0 {
      HourlyReads(cfg, s, from, n - 1);
      HourlyGrows(s, from, n);
      var b, t := Hourly(s, from, n - 1), from + n * HOUR;
      assert (b + [Poll(s, t, true)])[..|b|] == b;
      var c := b + [Poll(s, t, true)];
      assert (c + [Heed(s, t, SAID_NO, false, false)])[..|c|] == c;
    }
  }

  lemma {:induction false} StoodIsPassed(h: seq<Event>, s: string, act: PendingAct)
    requires Stood(s, act) in h && act.candidate != ""
    ensures Trial(act.candidate, true) in Verdicts(h)
    decreases |h|
  {
    if h[|h| - 1] != Stood(s, act) { StoodIsPassed(h[..|h| - 1], s, act); }
  }

  /** A tick at least every hour. */
  ghost predicate NoLongGap(steps: seq<Step>) {
    forall i | 0 < i < |steps| :: steps[i].now - steps[i - 1].now <= HOUR
  }

  function Day(s: string, target: string, from: int, n: nat): seq<Step> {
    [Poll(s, from, true), SomeNeed(s, target, from)] + Hourly(s, from, n)
  }

  /** Every even step is a poll; the odd ones come at the same time and are heeded or tended. */
  lemma DayAt(s: string, target: string, from: int, n: nat, i: nat)
    requires i < |Day(s, target, from, n)|
    ensures var step := Day(s, target, from, n)[i];
      && step.now == from + i / 2 * HOUR && step.surface == s
      && if i % 2 == 0 then step.Poll? else step.Heed? || step.TendNeed?
  {
    if i >= 2 {
      assert Day(s, target, from, n)[i] == Hourly(s, from, n)[i - 2];
      assert (i - 2) / 2 + 1 == i / 2 && (i - 2) % 2 == i % 2;
    }
  }

  lemma HourlyIsInTicks(s: string, target: string, from: int, n: nat)
    ensures InTicks(Day(s, target, from, n)) && NoLongGap(Day(s, target, from, n))
  {
    var steps := Day(s, target, from, n);
    forall i | 0 <= i < |steps|
      ensures steps[i].now == from + i / 2 * HOUR && steps[i].surface == s
      ensures if i % 2 == 0 then steps[i].Poll? else steps[i].Heed? || steps[i].TendNeed? {
      DayAt(s, target, from, n, i);
    }
    hide Day, Hourly;
    forall i, j | 0 <= i < j < |steps|
      ensures steps[i].now < steps[j].now || (steps[i].now == steps[j].now && Phase(steps[i]) <= Phase(steps[j])) {
      assert i / 2 <= j / 2 && (i / 2 == j / 2 ==> i % 2 == 0);
    }
    forall j | 0 <= j < |steps| && (steps[j].Heed? || steps[j].TendNeed?)
      ensures exists i :: 0 <= i < j && PollsAt(steps[i], steps[j].surface, steps[j].now) {
      assert j % 2 == 1 && (j - 1) / 2 == j / 2 && (j - 1) % 2 == 0;
      assert PollsAt(steps[j - 1], steps[j].surface, steps[j].now);
    }
  }

  /** Such a run: the human said no, the revert failed at every tick of every hour, and at the
      first tick after the window the candidate passed. */
  lemma {:induction false} NoThatPassed(cfg: Config, s: string, target: string) returns (steps: seq<Step>)
    requires Honest(cfg) && Sane(cfg) && s in cfg.acts
    requires target in Names(cfg.acts[s]) && target != BucketOf(cfg.acts[s], map[])
    ensures NobodyTouched(steps) && InTicks(steps) && NoLongGap(steps)
    ensures steps == Day(s, target, cfg.pollSecs, cfg.windowSecs / HOUR + 1)
    ensures NoSaid(Tended(cfg, s, target), s, SAID_NO)
    ensures Trial("candidate-0001", true) in Run(cfg, NOWHERE, steps).trials
  {
    hide BucketOf, Run, Next, Ends, OpenOn, Verdicts, Reads, NoSaid, InTicks, NoLongGap;
    var p, n := cfg.pollSecs, cfg.windowSecs / HOUR + 1;
    var hours, start := Hourly(s, p, n), [Poll(s, p, true), SomeNeed(s, target, p)];
    steps := start + hours;
    TendedIs(cfg, s, target);
    HourlyIsInTicks(s, target, p, n);
    var v, act := Tended(cfg, s, target), TendedAct(cfg, s, target);
    RunOfTwo(cfg, NOWHERE, start[0], start[1]);
    RunConcat(cfg, NOWHERE, start, hours);
    HoursPass(cfg, v, s, act, n);
    FreshAccounts(cfg, NOWHERE);
    RunAccounts(cfg, NOWHERE, steps);
    StoodIsPassed(Run(cfg, v, hours).history, s, act);
  }

  lemma HoursPass(cfg: Config, v: World, s: string, act: PendingAct, n: nat)
    requires Honest(cfg) && Sane(cfg) && s in cfg.acts && NoSaid(v, s, SAID_NO) && n * HOUR > cfg.windowSecs
    requires Mem(v, s) == SurfaceState(act.target, act.at, 0, Some(act)) && Truth(cfg, v, s) == act.target
    ensures Stood(s, act) in Run(cfg, v, Hourly(s, act.at, n)).history
  {
    hide Run, EndsByPolling, Hourly, NoSaid, WordsIn, AllHandsOff;
    var hours := Hourly(s, act.at, n);
    NoNewWords(v, s, act, act.at, n);
    HourlyReads(cfg, s, act.at, n);
    LastReadingEnds(cfg, Mem(v, s), act, Reads(cfg, s, act.at, hours).times);
    hide Reads;
    UnhonouredNo(cfg, v, hours, s, act);
  }

  lemma RunOfTwo(cfg: Config, w: World, a: Step, b: Step)
    ensures Run(cfg, w, [a, b]) == Next(cfg, Next(cfg, w, a), b)
  {
    RunAppend(cfg, w, [], a);
    RunAppend(cfg, w, [a], b);
    assert [] + [a] == [a] && [a] + [b] == [a, b];
  }

  /** Every word of those ticks is a no that fails. */
  lemma NoNewWords(v: World, s: string, act: PendingAct, from: int, n: nat)
    requires Mem(v, s).act == Some(act) && NoSaid(v, s, SAID_NO)
    ensures AllHandsOff(Hourly(s, from, n), s) && !WordsIn(Hourly(s, from, n), s, act)
  {}

  lemma LastReadingEnds(cfg: Config, st: SurfaceState, act: PendingAct, times: seq<int>)
    requires st.bucket == act.target && times != [] && Late(cfg, act, times[|times| - 1])
    ensures EndsByPolling(cfg, st, act.target, act, times)
  {}
}
