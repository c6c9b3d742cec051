/** What the loop does to the world, told from outside: which events each step adds to the
    record, and what it leaves remembered, moved, at rest and ruled. Nothing here follows the
    branches of the code; every condition is about the world before the step. */
module Record {
  import opened Declaration
  import opened ReactionRules
  import opened Actuation
  import opened Wrappers

  // -------------------------------------------------------------------------------- causes

  predicate IsDue(cfg: Config, w: World, step: Step, s: string) {
    step.Poll? && step.surface == s && s in cfg.acts && step.now - Mem(w, s).polledAt >= cfg.pollSecs
  }

  /** A poll of `s` that is due and can read the device. */
  predicate ReadsNow(cfg: Config, w: World, step: Step, s: string) { IsDue(cfg, w, step, s) && step.healthy }

  /** The device is found elsewhere than was remembered. */
  predicate Surprised(cfg: Config, w: World, step: Step, s: string) {
    ReadsNow(cfg, w, step, s) && Mem(w, s).bucket != "" && Mem(w, s).bucket != Truth(cfg, w, s)
  }

  predicate InWindow(cfg: Config, act: PendingAct, now: int) { now - act.at <= cfg.windowSecs }

  /** The thread of this act, when the step listens on its surface. */
  predicate Listens(cfg: Config, step: Step, s: string, act: PendingAct) {
    step.Heed? && step.surface == s && s in cfg.acts && act.pursuit.Thread? && act.pursuit.id in step.threads
  }

  ghost predicate DismissedSince(t: ThreadView, act: PendingAct) { exists i :: 0 <= i < |t.dismissals| && t.dismissals[i] > act.at }

  /** Something the act has not yet heard. */
  ghost predicate NewWords(cfg: Config, step: Step, s: string, act: PendingAct) {
    Listens(cfg, step, s, act) && var t := step.threads[act.pursuit.id]; |t.answers| > act.answersSeen || DismissedSince(t, act)
  }

  /** And a no is among it: an answer that says so, or a question dismissed. */
  ghost predicate NewNo(cfg: Config, step: Step, s: string, act: PendingAct) {
    && Listens(cfg, step, s, act)
    && var t := step.threads[act.pursuit.id];
       DismissedSince(t, act) || exists i :: act.answersSeen <= i < |t.answers| && t.answers[i].no
  }

  ghost predicate NewYes(cfg: Config, step: Step, s: string, act: PendingAct) {
    && Listens(cfg, step, s, act)
    && var t := step.threads[act.pursuit.id]; exists i :: act.answersSeen <= i < |t.answers| && t.answers[i].yes
  }

  /** A human's or a partner's command on `s` that is declared and runs. */
  predicate Commands(cfg: Config, step: Step, s: string) {
    (step.ByHand? || step.Partner?) && step.surface == s && s in cfg.acts && step.target in cfg.acts[s].actions && step.runs
  }

  /** The act that a need or an enabled rule asks for on `s`, if it is declared there and both
      the guard and the commands allow. */
  function Asked(cfg: Config, w: World, step: Step, s: string): Option<PendingAct> {
    if s !in cfg.acts then None
    else match step
      case TendNeed(x, now, thread, candidate, target, answers, permitted, healthy, runs) =>
        if x == s && target in cfg.acts[s].actions && permitted && healthy && runs
        then Some(PendingAct(Thread(thread), candidate, target, Truth(cfg, w, s), now, answers)) else None
      case TendRule(k, now, permitted, healthy, runs) =>
        if k < |w.rules| && w.rules[k].enabled && w.rules[k].surface == s && w.rules[k].act in cfg.acts[s].actions
           && permitted && healthy && runs
        then Some(PendingAct(Rule(w.rules[k].id), "", w.rules[k].act, Truth(cfg, w, s), now, 0)) else None
      case _ => None
  }

  /** Consent: quiet until the window has passed, or words that are no no. */
  ghost predicate Stands(cfg: Config, w: World, step: Step, s: string, act: PendingAct) {
    || (ReadsNow(cfg, w, step, s) && Truth(cfg, w, s) == Mem(w, s).bucket == act.target && act.target != "" && !InWindow(cfg, act, step.now))
    || (NewWords(cfg, step, s, act) && !NewNo(cfg, step, s, act))
  }

  /** Reversal: the device moved elsewhere within the window, a no that could be honoured, or
      a different act by hand. */
  ghost predicate Reverses(cfg: Config, w: World, step: Step, s: string, act: PendingAct) {
    || (Surprised(cfg, w, step, s) && Truth(cfg, w, s) != act.target && InWindow(cfg, act, step.now))
    || (NewNo(cfg, step, s, act) && step.reverts)
    || (step.ByHand? && Commands(cfg, step, s) && step.target != act.target)
  }

  /** When a step adds this event to the record. */
  ghost predicate Happens(cfg: Config, w: World, step: Step, e: Event) {
    match e
    case Adjusted(s, bucket) => Surprised(cfg, w, step, s) && bucket == Truth(cfg, w, s)
    case Opened(s, act) =>
      && Mem(w, s).act.None? && Mem(w, s).restUntil <= step.now
      && Asked(cfg, w, step, s) == Some(act) && act.prev != act.target
    case Stood(s, act) => Mem(w, s).act == Some(act) && Stands(cfg, w, step, s, act)
    case Undone(s, act, at) => Mem(w, s).act == Some(act) && at == step.now && Reverses(cfg, w, step, s, act)
    case Confirmed(s, act) =>
      Mem(w, s).act == Some(act) && step.ByHand? && Commands(cfg, step, s) && step.target == act.target
  }

  // ------------------------------------------------------------------------- one step's record

  /** The events of a move. */
  ghost predicate Tells(m: Move, s: string, e: Event) {
    m.verdict == Some(e) || (m.adjusted.Some? && e == Adjusted(s, m.adjusted.value))
  }

  lemma ToldIs(s: string, m: Move, e: Event)
    ensures e in Told(s, m) <==> Tells(m, s, e)
  {}

  lemma PollTells(cfg: Config, w: World, step: Step, e: Event)
    requires step.Poll? && step.surface in cfg.acts
    ensures var s := step.surface;
      Tells(PollMove(cfg, s, Mem(w, s), step.now, Seen(cfg, w, s, step.healthy)), s, e) <==> Happens(cfg, w, step, e)
  {
    hide BucketOf;
  }

  /** What was heard, by the positions of the answers. */
  lemma HeardIs(t: ThreadView, act: PendingAct)
    ensures Reacted(t, act) <==> |t.answers| > act.answersSeen || DismissedSince(t, act)
    ensures SaidNo(t, act) <==> DismissedSince(t, act) || exists i :: act.answersSeen <= i < |t.answers| && t.answers[i].no
    ensures SaidYes(t, act) <==> exists i :: act.answersSeen <= i < |t.answers| && t.answers[i].yes
  {
    var heard := NewAnswers(t, act);
    assert DismissedSince(t, act) <==> Dismissed(t, act.at);
    forall i | act.answersSeen <= i < |t.answers| ensures t.answers[i] in heard { assert heard[i - act.answersSeen] == t.answers[i]; }
    forall a | a in heard ensures exists i :: act.answersSeen <= i < |t.answers| && t.answers[i] == a {
      var j :| 0 <= j < |heard| && heard[j] == a;
      assert t.answers[act.answersSeen + j] == a;
    }
  }

  /** What the verbal channel does about an open act, by what is new in its thread. */
  lemma HeedDoes(cfg: Config, w: World, step: Step)
    requires step.Heed? && step.surface in cfg.acts && step.surface in w.mem && w.mem[step.surface].act.Some?
    ensures var s := step.surface; var st := w.mem[s]; var act := st.act.value;
      var m := HeedMove(s, st, step.now, step.threads, step.gated, step.reverts);
      if NewNo(cfg, step, s, act) then
        m == if step.reverts
             then Move(SurfaceState(act.prev, st.polledAt, step.now + 6 * 3600, None), Some(act.prev), TrialFor(act, false), None, None, None,
                       Some(Undone(s, act, step.now)))
             else Stay(st)
      else if NewWords(cfg, step, s, act) then
        m == Move(st.(act := None), None, TrialFor(act, true), None,
                  if Assents(cfg, w, step, s) then Some(Assent(step.threads[act.pursuit.id].proposal.value, step.now)) else None, None,
                  Some(Stood(s, act)))
      else m == Stay(st)
  {
    var act := w.mem[step.surface].act.value;
    if Listens(cfg, step, step.surface, act) { HeardIs(step.threads[act.pursuit.id], act); }
    hide Reacted, SaidNo, SaidYes, DismissedSince, TrialFor;
  }

  lemma HeedTells(cfg: Config, w: World, step: Step, e: Event)
    requires step.Heed? && step.surface in cfg.acts && step.surface in w.mem
    ensures var s := step.surface;
      Tells(HeedMove(s, w.mem[s], step.now, step.threads, step.gated, step.reverts), s, e) <==> Happens(cfg, w, step, e)
  {
    if w.mem[step.surface].act.Some? {
      HeedDoes(cfg, w, step);
      NoIsNew(cfg, step, step.surface, w.mem[step.surface].act.value);
      hide HeedMove;
    }
    hide BucketOf, DismissedSince;
  }

  lemma NoIsNew(cfg: Config, step: Step, s: string, act: PendingAct)
    ensures NewNo(cfg, step, s, act) ==> NewWords(cfg, step, s, act)
  {}

  lemma TendTells(cfg: Config, w: World, step: Step, e: Event)
    requires (step.TendNeed? || step.TendRule?) && MoveOf(cfg, w, step).Some?
    ensures Tells(MoveOf(cfg, w, step).value.1, MoveOf(cfg, w, step).value.0, e) <==> Happens(cfg, w, step, e)
  {
    hide BucketOf;
  }

  lemma HandTells(cfg: Config, w: World, step: Step, e: Event)
    requires (step.ByHand? || step.Partner?) && MoveOf(cfg, w, step).Some?
    ensures Tells(MoveOf(cfg, w, step).value.1, MoveOf(cfg, w, step).value.0, e) <==> Happens(cfg, w, step, e)
  {
    hide BucketOf;
  }

  lemma NothingHappens(cfg: Config, w: World, step: Step, e: Event)
    requires MoveOf(cfg, w, step).None?
    ensures !Happens(cfg, w, step, e)
  {
    hide BucketOf, PollMove, HeedMove, TendMove, HandMove, DismissedSince;
  }

  /** What a step adds to the record is exactly what happens by it. */
  lemma StepRecords(cfg: Config, w: World, step: Step, e: Event)
    ensures e in Since(w, Next(cfg, w, step)) <==> Happens(cfg, w, step, e)
    ensures |Since(w, Next(cfg, w, step))| <= 2 && w.history <= Next(cfg, w, step).history
    ensures var told := Since(w, Next(cfg, w, step)); |told| == 2 ==> told[0].Adjusted? && !told[1].Adjusted?
  {
    if MoveOf(cfg, w, step).Some? {
      var (s, m) := MoveOf(cfg, w, step).value;
      match step {
        case Poll(_, _, _) => PollTells(cfg, w, step, e);
        case Heed(_, _, _, _, _) => HeedTells(cfg, w, step, e);
        case TendNeed(_, _, _, _, _, _, _, _, _) => TendTells(cfg, w, step, e);
        case TendRule(_, _, _, _, _) => TendTells(cfg, w, step, e);
        case ByHand(_, _, _, _) => HandTells(cfg, w, step, e);
        case Partner(_, _, _, _) => HandTells(cfg, w, step, e);
      }
      NoAdjustedVerdict(cfg, w, step);
      ToldIs(s, m, e);
      hide MoveOf, Happens, RulesAfter, Tells;
      assert Since(w, Next(cfg, w, step)) == Told(s, m);
    } else {
      NothingHappens(cfg, w, step, e);
      hide MoveOf, Happens;
      assert Since(w, Next(cfg, w, step)) == [];
    }
  }

  lemma NoAdjustedVerdict(cfg: Config, w: World, step: Step)
    requires MoveOf(cfg, w, step).Some?
    ensures var m := MoveOf(cfg, w, step).value.1; m.verdict.Some? ==> !m.verdict.value.Adjusted?
  {
    hide BucketOf, Reacted, SaidNo, ThreadOf;
  }

  /** MAIN. The record, exactly: over any run from any world an event is added if and only if
      at some step it happens -- a surprise at a due and healthy poll, an act asked for where
      the device is elsewhere and the surface is free and rested, consent by quiet or by words,
      a reversal by the device, by a no or by hand, a confirmation by hand. */
  lemma {:induction false} RecordIs(cfg: Config, w: World, steps: seq<Step>, e: Event)
    ensures w.history <= Run(cfg, w, steps).history
    ensures e in Since(w, Run(cfg, w, steps)) <==> exists i :: HappensAt(cfg, w, steps, i, e)
    decreases |steps|
  {
    if steps != [] {
      var n := |steps| - 1;
      RecordIs(cfg, w, steps[..n], e);
      var v, x := Run(cfg, w, steps[..n]), Run(cfg, w, steps);
      StepRecords(cfg, v, steps[n], e);
      hide Next, Happens;
      assert Since(w, x) == Since(w, v) + Since(v, x);
      hide Run;
      HappensMore(cfg, w, steps, e);
    }
  }

  ghost predicate HappensAt(cfg: Config, w: World, steps: seq<Step>, i: int, e: Event) {
    0 <= i < |steps| && Happens(cfg, Run(cfg, w, steps[..i]), steps[i], e)
  }

  lemma HappensMore(cfg: Config, w: World, steps: seq<Step>, e: Event)
    requires steps != []
    ensures var n := |steps| - 1;
      (exists i :: HappensAt(cfg, w, steps, i, e)) <==>
        (exists i :: HappensAt(cfg, w, steps[..n], i, e)) || Happens(cfg, Run(cfg, w, steps[..n]), steps[n], e)
  {
    hide Run, Happens;
    var n := |steps| - 1;
    assert forall i | 0 <= i < n :: steps[..n][..i] == steps[..i] && steps[..n][i] == steps[i];
    assert HappensAt(cfg, w, steps, n, e) <==> Happens(cfg, Run(cfg, w, steps[..n]), steps[n], e);
    forall i | 0 <= i < n ensures HappensAt(cfg, w, steps, i, e) <==> HappensAt(cfg, w, steps[..n], i, e) {}
  }

  // --------------------------------------------------------------------- what a step leaves

  /** The command that a step runs on `s`: an act asked for that opens, the way back for a no
      that is honoured, or what a human or a partner orders. */
  ghost function Ran(cfg: Config, w: World, step: Step, s: string): Option<string> {
    if Commands(cfg, step, s) then Some(step.target)
    else match Mem(w, s).act
      case Some(act) => if NewNo(cfg, step, s, act) && step.reverts then Some(act.prev) else None
      case None =>
        var act := Asked(cfg, w, step, s);
        if act.Some? && Happens(cfg, w, step, Opened(s, act.value)) then Some(act.value.target) else None
  }

  /** The device after the step: moved by the command, touched, or left alone. */
  ghost function Moved(cfg: Config, w: World, step: Step, s: string): Reading {
    var ran := Ran(cfg, w, step, s);
    if ran.Some? then cfg.effect(s, ran.value, Look(w, s))
    else if Touches(step, s) then step.reading else Look(w, s)
  }

  /** What is remembered after the step: the truth if it was read, else what was ordered. */
  ghost function Remembered(cfg: Config, w: World, step: Step, s: string): string
    requires s in cfg.acts
  {
    var ran := Ran(cfg, w, step, s);
    if ReadsNow(cfg, w, step, s) then Truth(cfg, w, s) else if ran.Some? then ran.value else Mem(w, s).bucket
  }

  /** Which act is open after the step: none if it ended, the one that opened, or as before. */
  ghost predicate ActFollows(cfg: Config, w: World, step: Step, s: string, after: Option<PendingAct>) {
    match Mem(w, s).act
    case Some(act) =>
      after == if Stands(cfg, w, step, s, act) || Reverses(cfg, w, step, s, act) || Happens(cfg, w, step, Confirmed(s, act))
               then None else Some(act)
    case None =>
      var act := Asked(cfg, w, step, s);
      after == if act.Some? && Happens(cfg, w, step, Opened(s, act.value)) then act else None
  }

  ghost predicate RestFollows(cfg: Config, w: World, step: Step, s: string, after: int) {
    after == if Mem(w, s).act.Some? && Reverses(cfg, w, step, s, Mem(w, s).act.value) then step.now + 6 * 3600 else Mem(w, s).restUntil
  }

  /** All that a step does to a surface and its device. */
  ghost predicate Leaves(cfg: Config, w: World, step: Step, s: string, st: SurfaceState)
    requires s in cfg.acts
  {
    && st.bucket == Remembered(cfg, w, step, s)
    && st.polledAt == (if IsDue(cfg, w, step, s) then step.now else Mem(w, s).polledAt)
    && ActFollows(cfg, w, step, s, st.act) && RestFollows(cfg, w, step, s, st.restUntil)
  }

  lemma PollLeaves(cfg: Config, w: World, step: Step)
    requires step.Poll? && step.surface in cfg.acts
    ensures var s := step.surface; var m := PollMove(cfg, s, Mem(w, s), step.now, Seen(cfg, w, s, step.healthy));
      Leaves(cfg, w, step, s, m.st) && m.ran == Ran(cfg, w, step, s)
  {
    hide BucketOf, DismissedSince;
  }

  lemma HeedLeaves(cfg: Config, w: World, step: Step)
    requires step.Heed? && step.surface in cfg.acts && step.surface in w.mem
    ensures var s := step.surface; var m := HeedMove(s, w.mem[s], step.now, step.threads, step.gated, step.reverts);
      Leaves(cfg, w, step, s, m.st) && m.ran == Ran(cfg, w, step, s)
  {
    hide BucketOf;
    if w.mem[step.surface].act.Some? {
      HeedDoes(cfg, w, step);
      NoIsNew(cfg, step, step.surface, w.mem[step.surface].act.value);
      hide HeedMove;
    }
    hide NewNo, NewWords, NewYes;
  }

  lemma TendLeaves(cfg: Config, w: World, step: Step)
    requires (step.TendNeed? || step.TendRule?) && MoveOf(cfg, w, step).Some?
    ensures var (s, m) := MoveOf(cfg, w, step).value; s in cfg.acts && Leaves(cfg, w, step, s, m.st) && m.ran == Ran(cfg, w, step, s)
  {
    hide BucketOf;
  }

  lemma HandLeaves(cfg: Config, w: World, step: Step)
    requires (step.ByHand? || step.Partner?) && MoveOf(cfg, w, step).Some?
    ensures var (s, m) := MoveOf(cfg, w, step).value; s in cfg.acts && Leaves(cfg, w, step, s, m.st) && m.ran == Ran(cfg, w, step, s)
  {
    hide BucketOf;
  }

  /** A surface that the step does not make a move on. */
  lemma OthersLeft(cfg: Config, w: World, step: Step, s: string)
    requires s in cfg.acts && (MoveOf(cfg, w, step).Some? ==> MoveOf(cfg, w, step).value.0 != s)
    ensures Leaves(cfg, w, step, s, Mem(w, s)) && Ran(cfg, w, step, s).None?
  {
    hide BucketOf, PollMove, HeedMove, TendMove, HandMove, DismissedSince;
  }

  /** What a step leaves on every declared surface: what is remembered, when it was polled,
      the act that is open, its rest, and where the device is. */
  lemma StepLeaves(cfg: Config, w: World, step: Step, s: string)
    requires s in cfg.acts
    ensures var x := Next(cfg, w, step); Leaves(cfg, w, step, s, Mem(x, s)) && Look(x, s) == Moved(cfg, w, step, s)
  {
    hide Leaves, Ran, RulesAfter, PollMove, HeedMove, TendMove, HandMove, BucketOf;
    if MoveOf(cfg, w, step).Some? && MoveOf(cfg, w, step).value.0 == s {
      match step {
        case Poll(_, _, _) => PollLeaves(cfg, w, step);
        case Heed(_, _, _, _, _) => HeedLeaves(cfg, w, step);
        case TendNeed(_, _, _, _, _, _, _, _, _) => TendLeaves(cfg, w, step);
        case TendRule(_, _, _, _, _) => TendLeaves(cfg, w, step);
        case ByHand(_, _, _, _) => HandLeaves(cfg, w, step);
        case Partner(_, _, _, _) => HandLeaves(cfg, w, step);
      }
      assert !step.Touched?;
    } else {
      OthersLeft(cfg, w, step, s);
      assert step.Touched? ==> MoveOf(cfg, w, step).None?;
    }
    hide MoveOf;
  }

  /** The trial that a step writes: a pass for consent, a fail for a thread's act reversed. */
  ghost predicate TrialsFollow(cfg: Config, w: World, step: Step, s: string, trials: seq<Trial>) {
    match Mem(w, s).act
    case None => trials == []
    case Some(act) =>
      trials == if act.candidate != "" && Stands(cfg, w, step, s, act) then [Trial(act.candidate, true)]
                else if act.candidate != "" && act.pursuit.Thread? && Reverses(cfg, w, step, s, act) then [Trial(act.candidate, false)]
                else []
  }

  /** The rules after a step: a reversal takes down the rule that acted, an explicit yes mints
      the policy it was asked about, humans mint and switch, and nothing else changes any. */
  ghost function RulesLeft(cfg: Config, w: World, step: Step): seq<ReactionRule> {
    match step
    case Poll(s, _, _) => if RuleBlamed(cfg, w, step, s) then DisableReverted(w.rules, Mem(w, s).act.value.pursuit.rule) else w.rules
    case ByHand(s, _, _, _) => if RuleBlamed(cfg, w, step, s) then DisableReverted(w.rules, Mem(w, s).act.value.pursuit.rule) else w.rules
    case Heed(s, now, threads, _, _) =>
      if Assents(cfg, w, step, s) then MintPolicy(w.rules, threads[Mem(w, s).act.value.pursuit.id].proposal.value, now) else w.rules
    case Minted(subject, trigger, place, act, now) => Mint(w.rules, subject, trigger, place, act, now)
    case Assented(p, now) => MintPolicy(w.rules, p, now)
    case Switched(id, _, on) => SetEnabled(w.rules, id, on)
    case _ => w.rules
  }

  ghost predicate RuleBlamed(cfg: Config, w: World, step: Step, s: string) {
    Mem(w, s).act.Some? && Mem(w, s).act.value.pursuit.Rule? && Reverses(cfg, w, step, s, Mem(w, s).act.value)
  }

  /** A yes, with no no beside it, to a thread that proposes a policy, where acting is allowed. */
  ghost predicate Assents(cfg: Config, w: World, step: Step, s: string)
    requires step.Heed?
  {
    && Mem(w, s).act.Some?
    && var act := Mem(w, s).act.value;
       NewYes(cfg, step, s, act) && !NewNo(cfg, step, s, act) && step.gated && step.threads[act.pursuit.id].proposal.Some?
  }

  lemma PollJudges(cfg: Config, w: World, step: Step)
    requires step.Poll? && step.surface in cfg.acts
    ensures var s := step.surface; var m := PollMove(cfg, s, Mem(w, s), step.now, Seen(cfg, w, s, step.healthy));
      TrialsFollow(cfg, w, step, s, m.trials) && RulesAfter(w.rules, m) == RulesLeft(cfg, w, step)
  {
    hide BucketOf, DismissedSince, DisableReverted, MintPolicy;
  }

  lemma HeedJudges(cfg: Config, w: World, step: Step)
    requires step.Heed? && step.surface in cfg.acts && step.surface in w.mem
    ensures var s := step.surface; var m := HeedMove(s, w.mem[s], step.now, step.threads, step.gated, step.reverts);
      TrialsFollow(cfg, w, step, s, m.trials) && RulesAfter(w.rules, m) == RulesLeft(cfg, w, step)
  {
    hide BucketOf, DisableReverted, MintPolicy;
    if w.mem[step.surface].act.Some? {
      HeedDoes(cfg, w, step);
      NoIsNew(cfg, step, step.surface, w.mem[step.surface].act.value);
      hide HeedMove;
    }
    hide NewNo, NewWords, NewYes;
  }

  lemma HandJudges(cfg: Config, w: World, step: Step)
    requires step.ByHand? && MoveOf(cfg, w, step).Some?
    ensures var (s, m) := MoveOf(cfg, w, step).value;
      s == step.surface && TrialsFollow(cfg, w, step, s, m.trials) && RulesAfter(w.rules, m) == RulesLeft(cfg, w, step)
  {
    hide BucketOf, DisableReverted, MintPolicy;
  }

  lemma OthersJudge(cfg: Config, w: World, step: Step)
    requires step.TendNeed? || step.TendRule? || step.Partner? || MoveOf(cfg, w, step).None?
    ensures Next(cfg, w, step).trials == w.trials && Next(cfg, w, step).rules == RulesLeft(cfg, w, step)
    ensures forall s :: TrialsFollow(cfg, w, step, s, [])
  {
    hide BucketOf, PollMove, HeedMove, HandMove, DisableReverted, MintPolicy, Mint, SetEnabled, DismissedSince;
    assert w.trials + [] == w.trials;
  }

  /** What a step writes and does to the rules: per surface the one trial it calls for, and
      exactly the minting, switching and disabling it calls for. */
  lemma StepJudges(cfg: Config, w: World, step: Step)
    ensures w.trials <= Next(cfg, w, step).trials && Next(cfg, w, step).rules == RulesLeft(cfg, w, step)
    ensures var trials := Next(cfg, w, step).trials[|w.trials|..];
      match step
      case Poll(s, _, _) => TrialsFollow(cfg, w, step, s, trials)
      case Heed(s, _, _, _, _) => TrialsFollow(cfg, w, step, s, trials)
      case ByHand(s, _, _, _) => TrialsFollow(cfg, w, step, s, trials)
      case _ => trials == []
  {
    if (step.Poll? || step.Heed? || step.ByHand?) && MoveOf(cfg, w, step).Some? {
      match step {
        case Poll(_, _, _) => PollJudges(cfg, w, step);
        case Heed(_, _, _, _, _) => HeedJudges(cfg, w, step);
        case ByHand(_, _, _, _) => HandJudges(cfg, w, step);
      }
      hide TrialsFollow, RulesLeft, RulesAfter, PollMove, HeedMove, HandMove;
    } else {
      OthersJudge(cfg, w, step);
      hide MoveOf, Next, TrialsFollow, RulesLeft;
    }
  }

  /** The human's hand, outright. On an act that awaits its reaction the very same act is a
      confirmation, with no trial, no rule taken down and no rest; any other is a reversal, with
      the fail or the rule's disabling, and six hours' rest. Either way the act is closed, and
      the device and the memory are where the hand put them. */
  lemma HandDecides(cfg: Config, w: World, s: string, now: int, target: string)
    requires s in cfg.acts && target in cfg.acts[s].actions
    ensures var x := Next(cfg, w, ByHand(s, now, target, true)); var st := Mem(w, s);
      && x.device == w.device[s := cfg.effect(s, target, Look(w, s))]
      && Mem(x, s) == SurfaceState(target, st.polledAt,
           if st.act.Some? && st.act.value.target != target then now + 6 * 3600 else st.restUntil, None)
      && match st.act
         case None => x.history == w.history && x.trials == w.trials && x.rules == w.rules
         case Some(act) =>
           if act.target == target then
             x.history == w.history + [Confirmed(s, act)] && x.trials == w.trials && x.rules == w.rules
           else
             && x.history == w.history + [Undone(s, act, now)]
             && (act.pursuit.Rule? ==> x.trials == w.trials && x.rules == DisableReverted(w.rules, act.pursuit.rule))
             && (act.pursuit.Thread? ==> x.rules == w.rules)
             && (act.pursuit.Thread? ==> x.trials == w.trials + if act.candidate == "" then [] else [Trial(act.candidate, false)])
  {
    hide DisableReverted, MintPolicy;
    assert w.trials + [] == w.trials && w.history + [] == w.history;
    var m := HandMove(s, Mem(w, s), target, now);
    if m.verdict.Some? { assert Told(s, m) == [m.verdict.value]; } else { assert Told(s, m) == []; }
  }

  // ------------------------------------------------------------------------ over whole runs

  /** How often a poll of `s` found the device elsewhere than was remembered. */
  function Surprises(cfg: Config, w: World, steps: seq<Step>, s: string): nat
    decreases |steps|
  {
    if steps == [] then 0
    else
      var n := |steps| - 1;
      Surprises(cfg, w, steps[..n], s) + if Surprised(cfg, Run(cfg, w, steps[..n]), steps[n], s) then 1 else 0
  }

  /** The last thing read of `s` or ordered there. */
  ghost function LastKnown(cfg: Config, w: World, steps: seq<Step>, s: string): string
    requires s in cfg.acts
    decreases |steps|
  {
    if steps == [] then Mem(w, s).bucket
    else
      var n := |steps| - 1;
      var v := Run(cfg, w, steps[..n]);
      var ran := Ran(cfg, v, steps[n], s);
      if ReadsNow(cfg, v, steps[n], s) then Truth(cfg, v, s)
      else if ran.Some? then ran.value else LastKnown(cfg, w, steps[..n], s)
  }

  lemma AdjustmentsAdd(a: seq<Event>, b: seq<Event>, s: string)
    requires |b| <= 2 && (|b| == 2 ==> b[0].Adjusted? && !b[1].Adjusted?)
    ensures Adjustments(a + b, s) == Adjustments(a, s) + if exists e :: e in b && e.Adjusted? && e.surface == s then 1 else 0
  {
    if |b| == 0 {
      assert a + b == a;
    } else {
      assert (a + b)[..|a| + |b| - 1] == a + b[..|b| - 1];
      assert (a + b[..1])[..|a|] == a && a + b[..0] == a;
      assert b[0] in b && b[|b| - 1] in b;
    }
  }

  /** One step reports an adjustment exactly when it is surprised. */
  lemma StepReports(cfg: Config, w: World, step: Step, s: string)
    requires s in cfg.acts
    ensures Adjustments(Next(cfg, w, step).history, s) ==
      Adjustments(w.history, s) + if Surprised(cfg, w, step, s) then 1 else 0
  {
    var x := Next(cfg, w, step);
    StepRecords(cfg, w, step, Adjusted(s, Truth(cfg, w, s)));
    forall e | e in Since(w, x) && e.Adjusted? && e.surface == s ensures Surprised(cfg, w, step, s) { StepRecords(cfg, w, step, e); }
    AdjustmentsAdd(w.history, Since(w, x), s);
    assert x.history == w.history + Since(w, x);
  }

  /** MAIN. The poller notices every move and no other: over any run the adjustments reported
      of a surface are exactly the due and healthy polls that found it elsewhere than was
      remembered, act open or not; and what is remembered is the last thing read or ordered. */
  lemma {:induction false} ReportsAreSurprises(cfg: Config, w: World, steps: seq<Step>, s: string)
    requires s in cfg.acts
    ensures Adjustments(Run(cfg, w, steps).history, s) == Adjustments(w.history, s) + Surprises(cfg, w, steps, s)
    ensures Mem(Run(cfg, w, steps), s).bucket == LastKnown(cfg, w, steps, s)
    decreases |steps|
  {
    if steps != [] {
      var n := |steps| - 1;
      ReportsAreSurprises(cfg, w, steps[..n], s);
      StepReports(cfg, Run(cfg, w, steps[..n]), steps[n], s);
      StepLeaves(cfg, Run(cfg, w, steps[..n]), steps[n], s);
      hide Next, Ran, Truth, Surprised, ReadsNow;
    }
  }
}
