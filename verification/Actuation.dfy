/** The actuation loop: the familiar acts on declared surfaces, then reads the reaction, in
    the human's hands or in their words, and stands, undoes or rests accordingly.

    This module gives the loop as a state machine of single-surface steps over a world that
    holds the physical readings as well; `Hand` is the code that takes these steps. */
module Actuation {
  import opened Declaration
  import opened ReactionRules
  import opened Wrappers

  const ACTUATOR_REST_SECS: int := 6 * 3600

  /** The `thread_id` of a pending act: a thread, or `rule:<id>`. */
  datatype Pursuit = Thread(id: string) | Rule(rule: nat)

  /** An act awaiting its reaction; `candidate` is empty when nothing was being tried. */
  datatype PendingAct = PendingAct(pursuit: Pursuit, candidate: string, target: string, prev: string, at: int,
                                   answersSeen: nat)

  datatype SurfaceState = SurfaceState(bucket: string, polledAt: int, restUntil: int, act: Option<PendingAct>)

  const UNSEEN: SurfaceState := SurfaceState("", 0, 0, None)

  datatype Trial = Trial(candidate: string, pass: bool)

  /** What a reader of the whole history would see: acts and how each ended, and the
      `adjusted` observations of the poller. */
  datatype Event =
    | Opened(surface: string, act: PendingAct)
    | Stood(surface: string, act: PendingAct)
    | Undone(surface: string, act: PendingAct, at: int)
    | Confirmed(surface: string, act: PendingAct)
    | Adjusted(surface: string, bucket: string)

  /** What the keyword classifiers make of an answer. */
  datatype Answer = Answer(no: bool, yes: bool)

  /** A thread as the verbal channel reads it: its answers, when its questions were last
      dismissed, and the policy it proposes, if any. */
  datatype ThreadView = ThreadView(answers: seq<Answer>, dismissals: seq<int>, proposal: Option<Proposal>)

  /** A policy assented to, and when. */
  datatype Assent = Assent(proposal: Proposal, now: int)

  /** `effect` is what an act's command does to the device. */
  datatype Config = Config(acts: map<string, Actuator>, effect: (string, string, Reading) -> Reading,
                           pollSecs: int, windowSecs: int)

  datatype World = World(mem: map<string, SurfaceState>, device: map<string, Reading>, trials: seq<Trial>,
                         rules: seq<ReactionRule>, history: seq<Event>)

  /** The closed revert map promise: each bucket-named action leads to its bucket. (An action
      called "state" would share its tool with the state command.) */
  ghost predicate Honest(cfg: Config) {
    && (forall s | s in cfg.acts :: ValidActuator(cfg.acts[s]) && "state" !in cfg.acts[s].actions)
    && forall s, b, r | s in cfg.acts && b in Names(cfg.acts[s]) :: BucketOf(cfg.acts[s], cfg.effect(s, b, r)) == b
  }

  /** The parameters, clamped as they are loaded. */
  predicate Sane(cfg: Config) { 30 <= cfg.pollSecs <= 3600 && 60 <= cfg.windowSecs <= 86400 }

  function Mem(w: World, s: string): SurfaceState { if s in w.mem then w.mem[s] else UNSEEN }

  function Look(w: World, s: string): Reading { if s in w.device then w.device[s] else map[] }

  /** The bucket the device is in, whatever anyone remembers. */
  function Truth(cfg: Config, w: World, s: string): string
    requires s in cfg.acts
  {
    BucketOf(cfg.acts[s], Look(w, s))
  }

  // ------------------------------------------------------------------ one surface, one step

  /** All that one step does to its surface: the new memory, the act command that ran, the
      trial written, the rule reverted, the policy assented to, and the events seen. */
  datatype Move = Move(st: SurfaceState, ran: Option<string>, trials: seq<Trial>, reverted: Option<nat>,
                       assent: Option<Assent>, adjusted: Option<string>, verdict: Option<Event>)

  function Stay(st: SurfaceState): Move { Move(st, None, [], None, None, None, None) }

  /** `demote_after_reaction` and `close_act_positive`: a trial when the act names a candidate. */
  function TrialFor(act: PendingAct, pass: bool): seq<Trial> {
    if act.candidate == "" then [] else [Trial(act.candidate, pass)]
  }

  function Rested(st: SurfaceState, now: int): SurfaceState { st.(restUntil := now + ACTUATOR_REST_SECS, act := None) }

  /** The act ends undone: a rule is the pursuit and is disabled, or a candidate takes the blame. */
  function Undo(s: string, st: SurfaceState, act: PendingAct, now: int): Move {
    Move(Rested(st, now), None, if act.pursuit.Rule? then [] else TrialFor(act, false),
         if act.pursuit.Rule? then Some(act.pursuit.rule) else None, None, None, Some(Undone(s, act, now)))
  }

  function Stand(s: string, st: SurfaceState, act: PendingAct): Move {
    Move(st.(act := None), None, TrialFor(act, true), None, None, None, Some(Stood(s, act)))
  }

  /** `poll_actuators`, one surface; `seen` is the bucket read, if the read was healthy. */
  function PollMove(cfg: Config, s: string, st: SurfaceState, now: int, seen: Option<string>): Move {
    if now - st.polledAt < cfg.pollSecs then Stay(st)
    else
      var st := st.(polledAt := now);
      if seen.None? then Stay(st)
      else if st.bucket == "" then Stay(st.(bucket := seen.value))
      else if seen.value == st.bucket then
        if st.act.Some? && now - st.act.value.at > cfg.windowSecs && seen.value == st.act.value.target
        then Stand(s, st, st.act.value) else Stay(st)
      else
        var moved := st.(bucket := seen.value);
        (if st.act.Some? && now - st.act.value.at <= cfg.windowSecs && seen.value != st.act.value.target
         then Undo(s, moved, st.act.value, now) else Stay(moved)).(adjusted := Some(seen.value))
  }

  predicate Dismissed(t: ThreadView, at: int) { exists i | 0 <= i < |t.dismissals| :: t.dismissals[i] > at }

  function NewAnswers(t: ThreadView, act: PendingAct): seq<Answer> {
    if act.answersSeen <= |t.answers| then t.answers[act.answersSeen..] else []
  }

  predicate Reacted(t: ThreadView, act: PendingAct) { NewAnswers(t, act) != [] || Dismissed(t, act.at) }

  predicate SaidNo(t: ThreadView, act: PendingAct) { Dismissed(t, act.at) || exists a :: a in NewAnswers(t, act) && a.no }

  predicate SaidYes(t: ThreadView, act: PendingAct) { exists a :: a in NewAnswers(t, act) && a.yes }

  /** An explicit yes to a thread that proposes a policy mints it, if the boundary allows. */
  function AssentOf(t: ThreadView, act: PendingAct, gated: bool, now: int): Option<Assent> {
    if SaidYes(t, act) && gated && t.proposal.Some? then Some(Assent(t.proposal.value, now)) else None
  }

  /** The thread a pending act answers to; a rule's act has none. */
  function ThreadOf(threads: map<string, ThreadView>, act: PendingAct): Option<ThreadView> {
    if act.pursuit.Thread? && act.pursuit.id in threads then Some(threads[act.pursuit.id]) else None
  }

  /** `heed_reactions`, one surface; `gated` is the boundary's leave to act and `reverts`
      whether the revert command succeeds. */
  function HeedMove(s: string, st: SurfaceState, now: int, threads: map<string, ThreadView>, gated: bool, reverts: bool): Move {
    if st.act.None? then Stay(st)
    else
      var act := st.act.value;
      var t := ThreadOf(threads, act);
      if t.None? || !Reacted(t.value, act) then Stay(st)
      else if !SaidNo(t.value, act) then Stand(s, st, act).(assent := AssentOf(t.value, act, gated, now))
      else if !reverts then Stay(st)
      else Undo(s, st.(bucket := act.prev), act, now).(ran := Some(act.prev))
  }

  /** What `tend_actuators` and `tend_rules` share; `permitted` is the guard and the
      subject's standing, `runs` whether the act command succeeds. */
  function TendMove(s: string, st: SurfaceState, now: int, pursuit: Pursuit, candidate: string, target: string,
                    answers: nat, permitted: bool, seen: Option<string>, runs: bool): Move {
    if st.restUntil > now || st.act.Some? || !permitted || seen.None? || seen.value == target || !runs then Stay(st)
    else
      var act := PendingAct(pursuit, candidate, target, seen.value, now, answers);
      Move(st.(bucket := target, act := Some(act)), Some(target), [], None, None, None, Some(Opened(s, act)))
  }

  /** `actuate_by_hand`, past its refusals: the human's hand on an awaited reaction IS the
      reaction, a no or (for the same act) a confirmation. */
  function HandMove(s: string, st: SurfaceState, target: string, now: int): Move {
    var settled :=
      if st.act.None? then Stay(st)
      else if target != st.act.value.target then Undo(s, st, st.act.value, now)
      else Move(st.(act := None), None, [], None, None, None, Some(Confirmed(s, st.act.value)));
    settled.(ran := Some(target), st := settled.st.(bucket := target))
  }

  // ------------------------------------------------------------------------- the world

  function RulesAfter(rules: seq<ReactionRule>, m: Move): seq<ReactionRule> {
    if m.reverted.Some? then DisableReverted(rules, m.reverted.value)
    else if m.assent.Some? then MintPolicy(rules, m.assent.value.proposal, m.assent.value.now)
    else rules
  }

  function Effects(cfg: Config, w: World, s: string, ran: Option<string>): map<string, Reading> {
    if ran.None? then w.device else w.device[s := cfg.effect(s, ran.value, Look(w, s))]
  }

  function Told(s: string, m: Move): seq<Event> {
    (if m.adjusted.Some? then [Adjusted(s, m.adjusted.value)] else []) + if m.verdict.Some? then [m.verdict.value] else []
  }

  function Apply(cfg: Config, w: World, s: string, m: Move): World {
    World(w.mem[s := m.st], Effects(cfg, w, s, m.ran), w.trials + m.trials,
          RulesAfter(w.rules, m),
          w.history + Told(s, m))
  }

  /** The six kinds of step of the loop, the human's hand on the device itself, and the
      human's hand on the rules: a single mint, a policy assented to while it was pending, and
      the switch. A rule fires by its row. The flags say whether each command run was healthy. */
  datatype Step =
    | Poll(surface: string, now: int, healthy: bool)
    | Heed(surface: string, now: int, threads: map<string, ThreadView>, gated: bool, reverts: bool)
    | TendNeed(surface: string, now: int, thread: string, candidate: string, target: string, answers: nat,
               permitted: bool, healthy: bool, runs: bool)
    | TendRule(row: nat, now: int, permitted: bool, healthy: bool, runs: bool)
    | ByHand(surface: string, now: int, target: string, runs: bool)
    | Partner(surface: string, now: int, target: string, runs: bool)
    | Touched(surface: string, now: int, reading: Reading)
    | Minted(subject: string, trigger: Trigger, place: string, act: string, now: int)
    | Assented(proposal: Proposal, now: int)
    | Switched(rule: nat, now: int, on: bool)

  function Seen(cfg: Config, w: World, s: string, healthy: bool): Option<string>
    requires s in cfg.acts
  {
    if healthy then Some(Truth(cfg, w, s)) else None
  }

  /** The move a step of the loop makes, with its surface; nothing for a refusal. */
  function MoveOf(cfg: Config, w: World, step: Step): Option<(string, Move)> {
    match step
    case Poll(s, now, healthy) =>
      if s !in cfg.acts then None else Some((s, PollMove(cfg, s, Mem(w, s), now, Seen(cfg, w, s, healthy))))
    case Heed(s, now, threads, gated, reverts) =>
      if s !in cfg.acts || s !in w.mem then None else Some((s, HeedMove(s, w.mem[s], now, threads, gated, reverts)))
    case TendNeed(s, now, thread, candidate, target, answers, permitted, healthy, runs) =>
      if s !in cfg.acts || target !in cfg.acts[s].actions then None
      else Some((s, TendMove(s, Mem(w, s), now, Thread(thread), candidate, target, answers, permitted,
                             Seen(cfg, w, s, healthy), runs)))
    case TendRule(k, now, permitted, healthy, runs) =>
      if k >= |w.rules| || !w.rules[k].enabled then None
      else
        var s, target := w.rules[k].surface, w.rules[k].act;
        if s !in cfg.acts || target !in cfg.acts[s].actions then None
        else Some((s, TendMove(s, Mem(w, s), now, Rule(w.rules[k].id), "", target, 0, permitted, Seen(cfg, w, s, healthy), runs)))
    case ByHand(s, now, target, runs) =>
      if s !in cfg.acts || target !in cfg.acts[s].actions || !runs then None
      else Some((s, HandMove(s, Mem(w, s), target, now)))
    case Partner(s, now, target, runs) =>
      if s !in cfg.acts || target !in cfg.acts[s].actions || !runs then None
      else Some((s, Stay(Mem(w, s).(bucket := target)).(ran := Some(target))))
    case _ => None
  }

  /** What humans do behind the loop's back. */
  function Outside(w: World, step: Step): World {
    match step
    case Touched(s, _, reading) => w.(device := w.device[s := reading])
    case Minted(subject, trigger, place, act, now) => w.(rules := Mint(w.rules, subject, trigger, place, act, now))
    case Assented(p, now) => w.(rules := MintPolicy(w.rules, p, now))
    case Switched(id, _, on) => w.(rules := SetEnabled(w.rules, id, on))
    case _ => w
  }

  function Next(cfg: Config, w: World, step: Step): World {
    var m := MoveOf(cfg, w, step);
    if m.Some? then Apply(cfg, w, m.value.0, m.value.1) else Outside(w, step)
  }

  function Run(cfg: Config, w: World, steps: seq<Step>): World
    decreases |steps|
  {
    if steps == [] then w
    else Next(cfg, Run(cfg, w, steps[..|steps| - 1]), steps[|steps| - 1])
  }

  /** What a later world has to tell. */
  function Since(w: World, v: World): seq<Event> {
    if |w.history| <= |v.history| then v.history[|w.history|..] else []
  }

  /** Where every run starts: nothing remembered, nothing tried, any device, any rules. */
  predicate Fresh(w: World) { w.mem == map[] && w.trials == [] && w.history == [] }

  lemma RunAppend(cfg: Config, w: World, steps: seq<Step>, step: Step)
    ensures Run(cfg, w, steps + [step]) == Next(cfg, Run(cfg, w, steps), step)
  {
    assert (steps + [step])[..|steps|] == steps;
  }

  lemma {:induction false} RunConcat(cfg: Config, w: World, a: seq<Step>, b: seq<Step>)
    ensures Run(cfg, w, a + b) == Run(cfg, Run(cfg, w, a), b)
    decreases |b|
  {
    if b == [] {
      assert a + b == a;
    } else {
      assert (a + b)[..|a + b| - 1] == a + b[..|b| - 1];
      RunConcat(cfg, w, a, b[..|b| - 1]);
    }
  }

  // ------------------------------------------------------------------ verdict accounting

  /** The act that is open on a surface, by the history alone. */
  function OpenOn(h: seq<Event>, s: string): Option<PendingAct>
    decreases |h|
  {
    if h == [] then None
    else
      var e := h[|h| - 1];
      if e.surface != s || e.Adjusted? then OpenOn(h[..|h| - 1], s)
      else if e.Opened? then Some(e.act) else None
  }

  /** An act opens only on a surface with none open; an ending ends the very act that is. */
  predicate Fits(h: seq<Event>, e: Event) {
    match e
    case Adjusted(_, _) => true
    case Opened(s, _) => OpenOn(h, s).None?
    case _ => OpenOn(h, e.surface) == Some(e.act)
  }

  ghost predicate Orderly(h: seq<Event>) { forall i | 0 <= i < |h| :: Fits(h[..i], h[i]) }

  predicate Ends(e: Event) { e.Stood? || e.Undone? || e.Confirmed? }

  /** The trials that a history calls for. */
  function Verdicts(h: seq<Event>): seq<Trial>
    decreases |h|
  {
    if h == [] then [] else Verdicts(h[..|h| - 1]) + TrialOf(h[|h| - 1])
  }

  function TrialOf(e: Event): seq<Trial> {
    match e
    case Stood(_, act) => TrialFor(act, true)
    case Undone(_, act, _) => TrialFor(act, false)
    case _ => []
  }

  function CountOpened(h: seq<Event>, s: string): nat
    decreases |h|
  {
    if h == [] then 0
    else CountOpened(h[..|h| - 1], s) + if h[|h| - 1].surface == s && h[|h| - 1].Opened? then 1 else 0
  }

  function CountEnded(h: seq<Event>, s: string): nat
    decreases |h|
  {
    if h == [] then 0
    else CountEnded(h[..|h| - 1], s) + if h[|h| - 1].surface == s && Ends(h[|h| - 1]) then 1 else 0
  }

  /** A pending act can be taken back: it names a bucket other than what it set, and that
      bucket's action is declared. */
  predicate Undoable(a: Actuator, act: PendingAct) {
    && act.prev != act.target && act.prev in Names(a) && act.prev in a.actions && act.target in a.actions
    && (act.pursuit.Rule? ==> act.candidate == "")
  }

  ghost predicate MemoryAgrees(cfg: Config, w: World) {
    forall s :: OpenOn(w.history, s) == Mem(w, s).act
  }

  ghost predicate AllUndoable(cfg: Config, w: World) {
    forall s :: Mem(w, s).act.Some? ==> s in cfg.acts && Undoable(cfg.acts[s], Mem(w, s).act.value)
  }

  ghost predicate Accounted(cfg: Config, w: World) {
    Orderly(w.history) && w.trials == Verdicts(w.history) && MemoryAgrees(cfg, w) && AllUndoable(cfg, w)
  }

  /** A move says what it did to its open act. */
  predicate Tidy(a: Actuator, s: string, st: SurfaceState, m: Move) {
    && m.trials == (if m.verdict.Some? then TrialOf(m.verdict.value) else [])
    && (match m.verdict
        case None => m.st.act == st.act
        case Some(Opened(x, act)) => x == s && st.act.None? && m.st.act == Some(act) && Undoable(a, act)
        case Some(Adjusted(_, _)) => false
        case Some(e) => e.surface == s && st.act == Some(e.act) && m.st.act.None?)
  }

  lemma AppendEvent(h: seq<Event>, e: Event)
    requires Orderly(h) && Fits(h, e)
    ensures Orderly(h + [e]) && Verdicts(h + [e]) == Verdicts(h) + TrialOf(e)
    ensures forall s :: OpenOn(h + [e], s) == if e.surface != s || e.Adjusted? then OpenOn(h, s)
                                              else if e.Opened? then Some(e.act) else None
  {
    var g := h + [e];
    assert g[..|h|] == h;
    forall i | 0 <= i < |g| ensures Fits(g[..i], g[i]) {
      if i < |h| { assert g[..i] == h[..i]; }
    }
  }

  lemma ToldIsOrderly(h: seq<Event>, a: Actuator, s: string, st: SurfaceState, m: Move)
    requires Orderly(h) && OpenOn(h, s) == st.act && Tidy(a, s, st, m)
    ensures Orderly(h + Told(s, m)) && Verdicts(h + Told(s, m)) == Verdicts(h) + m.trials
    ensures forall x :: OpenOn(h + Told(s, m), x) == if x == s then m.st.act else OpenOn(h, x)
  {
    hide OpenOn, Verdicts, Undoable;
    var g := h;
    if m.adjusted.Some? {
      AppendEvent(h, Adjusted(s, m.adjusted.value));
      g := h + [Adjusted(s, m.adjusted.value)];
    }
    if m.verdict.Some? { AppendEvent(g, m.verdict.value); }
    assert h + Told(s, m) == if m.verdict.Some? then g + [m.verdict.value] else g;
  }

  lemma ApplyAccounts(cfg: Config, w: World, s: string, m: Move)
    requires Accounted(cfg, w) && s in cfg.acts && Tidy(cfg.acts[s], s, Mem(w, s), m)
    ensures Accounted(cfg, Apply(cfg, w, s, m))
  {
    hide OpenOn, Verdicts, TrialOf, Effects, RulesAfter, Told;
    ToldIsOrderly(w.history, cfg.acts[s], s, Mem(w, s), m);
    var v := Apply(cfg, w, s, m);
    forall x ensures OpenOn(v.history, x) == Mem(v, x).act
      && (Mem(v, x).act.Some? ==> x in cfg.acts && Undoable(cfg.acts[x], Mem(v, x).act.value)) {
      assert OpenOn(w.history, x) == Mem(w, x).act;
      assert x != s ==> Mem(v, x) == Mem(w, x);
    }
  }

  predicate FineAct(a: Actuator, st: SurfaceState) { st.act.Some? ==> Undoable(a, st.act.value) }

  lemma PollIsTidy(cfg: Config, a: Actuator, s: string, st: SurfaceState, now: int, seen: Option<string>)
    requires FineAct(a, st)
    ensures Tidy(a, s, st, PollMove(cfg, s, st, now, seen))
  {
    if st.act.Some? { assert Undoable(a, st.act.value); }
  }

  lemma HeedIsTidy(a: Actuator, s: string, st: SurfaceState, now: int, threads: map<string, ThreadView>, gated: bool,
                   reverts: bool)
    requires FineAct(a, st)
    ensures Tidy(a, s, st, HeedMove(s, st, now, threads, gated, reverts))
  {
    hide Reacted, SaidNo;
    if st.act.Some? { assert Undoable(a, st.act.value); }
  }

  lemma TendIsTidy(a: Actuator, s: string, st: SurfaceState, now: int, pursuit: Pursuit, candidate: string,
                   target: string, answers: nat, permitted: bool, seen: Option<string>, runs: bool)
    requires target in a.actions && (pursuit.Rule? ==> candidate == "")
    requires seen.Some? ==> seen.value in Names(a) && seen.value in a.actions
    ensures Tidy(a, s, st, TendMove(s, st, now, pursuit, candidate, target, answers, permitted, seen, runs))
  {}

  lemma HandIsTidy(a: Actuator, s: string, st: SurfaceState, target: string, now: int)
    requires FineAct(a, st)
    ensures Tidy(a, s, st, HandMove(s, st, target, now))
  {
    if st.act.Some? { assert Undoable(a, st.act.value); }
  }

  lemma MoveIsTidy(cfg: Config, w: World, step: Step)
    requires Honest(cfg) && AllUndoable(cfg, w) && MoveOf(cfg, w, step).Some?
    ensures var (s, m) := MoveOf(cfg, w, step).value; s in cfg.acts && Tidy(cfg.acts[s], s, Mem(w, s), m)
  {
    hide BucketOf, PollMove, HeedMove, TendMove, HandMove, Tidy;
    var s := MoveOf(cfg, w, step).value.0;
    var a, st := cfg.acts[s], Mem(w, s);
    assert FineAct(a, st);
    RevertMapIsClosed(a, Look(w, s));
    match step {
      case Poll(_, now, healthy) => PollIsTidy(cfg, a, s, st, now, Seen(cfg, w, s, healthy));
      case Heed(_, now, threads, gated, reverts) => HeedIsTidy(a, s, st, now, threads, gated, reverts);
      case TendNeed(_, now, thread, candidate, target, answers, permitted, healthy, runs) =>
        TendIsTidy(a, s, st, now, Thread(thread), candidate, target, answers, permitted, Seen(cfg, w, s, healthy), runs);
      case TendRule(k, now, permitted, healthy, runs) =>
        TendIsTidy(a, s, st, now, Rule(w.rules[k].id), "", w.rules[k].act, 0, permitted, Seen(cfg, w, s, healthy), runs);
      case ByHand(_, now, target, _) => HandIsTidy(a, s, st, target, now);
      case Partner(_, _, target, _) => PartnerIsTidy(a, s, st, target);
    }
  }

  lemma PartnerIsTidy(a: Actuator, s: string, st: SurfaceState, target: string)
    ensures Tidy(a, s, st, Stay(st.(bucket := target)).(ran := Some(target)))
  {}

  lemma NextAccounts(cfg: Config, w: World, step: Step)
    requires Honest(cfg) && Accounted(cfg, w)
    ensures Accounted(cfg, Next(cfg, w, step))
  {
    hide MoveOf, OpenOn, Verdicts, Apply, Undoable;
    if MoveOf(cfg, w, step).Some? {
      MoveIsTidy(cfg, w, step);
      ApplyAccounts(cfg, w, MoveOf(cfg, w, step).value.0, MoveOf(cfg, w, step).value.1);
    } else {
      var v := Next(cfg, w, step);
      assert v.mem == w.mem && v.history == w.history && v.trials == w.trials;
      assert forall s :: Mem(v, s) == Mem(w, s);
    }
  }

  lemma {:induction false} RunAccounts(cfg: Config, w: World, steps: seq<Step>)
    requires Honest(cfg) && Accounted(cfg, w)
    ensures Accounted(cfg, Run(cfg, w, steps))
    decreases |steps|
  {
    if steps != [] {
      RunAccounts(cfg, w, steps[..|steps| - 1]);
      NextAccounts(cfg, Run(cfg, w, steps[..|steps| - 1]), steps[|steps| - 1]);
    }
  }

  lemma FreshAccounts(cfg: Config, w: World)
    requires Fresh(w)
    ensures Accounted(cfg, w)
  {
    assert forall s :: Mem(w, s) == UNSEEN && OpenOn(w.history, s).None?;
  }

  lemma {:induction false} CountsBalance(h: seq<Event>, s: string)
    requires Orderly(h)
    ensures CountOpened(h, s) == CountEnded(h, s) + if OpenOn(h, s).Some? then 1 else 0
    decreases |h|
  {
    if h != [] {
      var g := h[..|h| - 1];
      assert forall i | 0 <= i < |g| :: g[..i] == h[..i];
      assert Fits(h[..|h| - 1], h[|h| - 1]);
      CountsBalance(g, s);
    }
  }

  /** The open act was opened at some moment, and nothing ended on its surface since. */
  ghost predicate OpenSince(h: seq<Event>, s: string, act: PendingAct, k: int) {
    0 <= k < |h| && h[k] == Opened(s, act) && forall j | k < j < |h| :: h[j].surface != s || h[j].Adjusted?
  }

  lemma {:induction false} OpeningOf(h: seq<Event>, s: string) returns (k: int)
    requires OpenOn(h, s).Some?
    ensures OpenSince(h, s, OpenOn(h, s).value, k)
    decreases |h|
  {
    var e := h[|h| - 1];
    if e.surface != s || e.Adjusted? {
      k := OpeningOf(h[..|h| - 1], s);
    } else {
      k := |h| - 1;
    }
  }

  /** Every ending has its own opening: an earlier one, of the same act, with no other ending
      or opening on the surface in between. */
  ghost predicate OneEndingEach(h: seq<Event>) {
    forall i | 0 <= i < |h| && Ends(h[i]) :: exists k :: OpenSince(h[..i], h[i].surface, h[i].act, k)
  }

  lemma EndingsHaveOpenings(h: seq<Event>)
    requires Orderly(h)
    ensures OneEndingEach(h)
  {
    forall i | 0 <= i < |h| && Ends(h[i]) ensures exists k :: OpenSince(h[..i], h[i].surface, h[i].act, k) {
      assert Fits(h[..i], h[i]);
      var k := OpeningOf(h[..i], h[i].surface);
    }
  }

  /** On this surface what was opened has ended, but for the act that may be open. */
  predicate Balanced(w: World, s: string) {
    CountOpened(w.history, s) == CountEnded(w.history, s) + if Mem(w, s).act.Some? then 1 else 0
  }

  /** MAIN. Verdict accounting over every run of all the steps: on each surface the acts
      opened are the acts that ended and the one that may be open; an act ends once, as
      stood, undone or confirmed; and the trials are exactly the passes of the acts that
      stood and the fails of those undone, for the acts that name a candidate. */
  lemma {:induction false} VerdictAccounting(cfg: Config, w: World, steps: seq<Step>)
    requires Honest(cfg) && Fresh(w)
    ensures var v := Run(cfg, w, steps);
      v.trials == Verdicts(v.history) && OneEndingEach(v.history) && forall s :: Balanced(v, s)
  {
    FreshAccounts(cfg, w);
    RunAccounts(cfg, w, steps);
    var v := Run(cfg, w, steps);
    EndingsHaveOpenings(v.history);
    forall s ensures Balanced(v, s) {
      CountsBalance(v.history, s);
      assert OpenOn(v.history, s) == Mem(v, s).act;
    }
  }

  // ------------------------------------------------------------------------ self-debounce

  /** Every act of the surface lands in the bucket it is named after. */
  ghost predicate Lands(cfg: Config, s: string)
    requires s in cfg.acts
  {
    forall target | target in cfg.acts[s].actions :: target == "" || target in Names(cfg.acts[s])
  }

  /** What is remembered of the surface is nothing, or the truth. */
  predicate Knows(cfg: Config, w: World, s: string)
    requires s in cfg.acts
  {
    Mem(w, s).bucket == "" || Mem(w, s).bucket == Truth(cfg, w, s)
  }

  predicate Touches(step: Step, s: string) { step.Touched? && step.surface == s }

  /** The adjustments of a surface that the poller has reported. */
  function Adjustments(h: seq<Event>, s: string): nat
    decreases |h|
  {
    if h == [] then 0
    else Adjustments(h[..|h| - 1], s) + if h[|h| - 1].Adjusted? && h[|h| - 1].surface == s then 1 else 0
  }

  function TouchCount(steps: seq<Step>, s: string): nat
    decreases |steps|
  {
    if steps == [] then 0
    else TouchCount(steps[..|steps| - 1], s) + if Touches(steps[|steps| - 1], s) then 1 else 0
  }

  function Doubt(cfg: Config, w: World, s: string): nat
    requires s in cfg.acts
  {
    if Knows(cfg, w, s) then 0 else 1
  }

  /** A move that is not surprised, and remembers the truth or what it just did. */
  predicate Learns(m: Move, truth: string) {
    m.adjusted.None? && (m.st.bucket == "" || m.st.bucket == if m.ran.None? then truth else m.ran.value)
  }

  lemma PollLearns(cfg: Config, s: string, st: SurfaceState, now: int, seen: Option<string>, truth: string)
    requires (st.bucket == "" || st.bucket == truth) && (seen.Some? ==> seen.value == truth)
    ensures Learns(PollMove(cfg, s, st, now, seen), truth) && PollMove(cfg, s, st, now, seen).ran.None?
  {}

  lemma HeedLearns(s: string, st: SurfaceState, now: int, threads: map<string, ThreadView>, gated: bool, reverts: bool,
                   truth: string)
    requires st.bucket == "" || st.bucket == truth
    ensures var m := HeedMove(s, st, now, threads, gated, reverts);
      Learns(m, truth) && (m.ran.Some? ==> st.act.Some? && m.ran.value == st.act.value.prev)
  {
    hide Reacted, SaidNo, ThreadOf;
  }

  lemma MoveIsKnown(cfg: Config, w: World, step: Step)
    requires Honest(cfg) && AllUndoable(cfg, w) && MoveOf(cfg, w, step).Some?
    requires var s := MoveOf(cfg, w, step).value.0; s in cfg.acts && Lands(cfg, s) && Knows(cfg, w, s)
    ensures var (s, m) := MoveOf(cfg, w, step).value;
      Learns(m, Truth(cfg, w, s)) && (m.ran.Some? ==> m.ran.value == "" || m.ran.value in Names(cfg.acts[s]))
  {
    hide BucketOf, PollMove, HeedMove;
    var s := MoveOf(cfg, w, step).value.0;
    var st := Mem(w, s);
    assert FineAct(cfg.acts[s], st);
    match step {
      case Poll(_, now, healthy) => PollLearns(cfg, s, st, now, Seen(cfg, w, s, healthy), Truth(cfg, w, s));
      case Heed(_, now, threads, gated, reverts) => HeedLearns(s, st, now, threads, gated, reverts, Truth(cfg, w, s));
      case _ =>
    }
  }

  /** An adjustment reported is the poller's, and then it knows the truth. */
  lemma ReportCorrects(cfg: Config, w: World, step: Step)
    requires MoveOf(cfg, w, step).Some?
    ensures var (s, m) := MoveOf(cfg, w, step).value;
      m.adjusted.Some? ==> s in cfg.acts && m.ran.None? && m.st.bucket == Truth(cfg, w, s)
  {
    hide BucketOf, Reacted, SaidNo, ThreadOf;
  }

  lemma ToldAdjustments(h: seq<Event>, s: string, m: Move, x: string)
    requires m.verdict.Some? ==> !m.verdict.value.Adjusted?
    ensures Adjustments(h + Told(s, m), x) == Adjustments(h, x) + if m.adjusted.Some? && x == s then 1 else 0
  {
    var g := if m.adjusted.Some? then h + [Adjusted(s, m.adjusted.value)] else h;
    assert (h + [Event.Adjusted(s, "")])[..|h|] == h;
    if m.adjusted.Some? { assert g[..|h|] == h; }
    if m.verdict.Some? {
      assert (g + [m.verdict.value])[..|g|] == g;
      assert h + Told(s, m) == g + [m.verdict.value];
    } else {
      assert h + Told(s, m) == g;
    }
  }

  /** A step may report one adjustment of a surface, and only to settle a doubt that a touch
      of it has raised. */
  lemma NextIsKnown(cfg: Config, w: World, step: Step, s: string)
    requires Honest(cfg) && s in cfg.acts && Lands(cfg, s) && AllUndoable(cfg, w)
    ensures var x := Next(cfg, w, step);
      Adjustments(x.history, s) + Doubt(cfg, x, s) <= Adjustments(w.history, s) + Doubt(cfg, w, s) + if Touches(step, s) then 1 else 0
    ensures Adjustments(Next(cfg, w, step).history, s) >= Adjustments(w.history, s)
  {
    hide MoveOf, BucketOf, RulesAfter, Adjustments, Told;
    if MoveOf(cfg, w, step).Some? {
      var (x, m) := MoveOf(cfg, w, step).value;
      MoveIsTidy(cfg, w, step);
      ReportCorrects(cfg, w, step);
      ToldAdjustments(w.history, x, m, s);
      if x == s && Knows(cfg, w, s) { MoveIsKnown(cfg, w, step); }
    }
  }

  /** What has been reported of a surface since `w`, and the doubt about it, are no more than
      the doubt there was and the touches of that surface since. */
  ghost predicate Answered(cfg: Config, w: World, steps: seq<Step>, s: string)
    requires s in cfg.acts
  {
    var v := Run(cfg, w, steps);
    Adjustments(v.history, s) + Doubt(cfg, v, s) <= Adjustments(w.history, s) + Doubt(cfg, w, s) + TouchCount(steps, s)
  }

  lemma {:induction false} RunIsKnown(cfg: Config, w: World, steps: seq<Step>, s: string)
    requires Honest(cfg) && s in cfg.acts && Lands(cfg, s) && Accounted(cfg, w)
    ensures Answered(cfg, w, steps, s) && Adjustments(Run(cfg, w, steps).history, s) >= Adjustments(w.history, s)
    decreases |steps|
  {
    if steps != [] {
      var before := steps[..|steps| - 1];
      RunIsKnown(cfg, w, before, s);
      RunAccounts(cfg, w, before);
      NextIsKnown(cfg, Run(cfg, w, before), steps[|steps| - 1], s);
    }
  }

  /** The order of one tick on a surface. */
  function Phase(step: Step): nat {
    match step case Poll(_, _, _) => 0 case Heed(_, _, _, _, _) => 1 case TendNeed(_, _, _, _, _, _, _, _, _) => 2 case _ => 3
  }

  /** Steps that ticks can take: the clock does not go back, and within a tick every surface
      is polled before it is heeded, and heeded before it is tended. */
  ghost predicate InTicks(steps: seq<Step>) {
    && (forall i, j | 0 <= i < j < |steps| ::
          steps[i].now < steps[j].now || (steps[i].now == steps[j].now && Phase(steps[i]) <= Phase(steps[j])))
    && forall j | 0 <= j < |steps| && (steps[j].Heed? || steps[j].TendNeed?) ::
         exists i :: 0 <= i < j && PollsAt(steps[i], steps[j].surface, steps[j].now)
  }

  predicate PollsAt(step: Step, s: string, now: int) { step.Poll? && step.surface == s && step.now == now }

  const NOWHERE: World := World(map[], map[], [], [], [])

  lemma FirstSight(cfg: Config, w: World, s: string, now: int)
    requires s in cfg.acts && s !in w.mem && now >= cfg.pollSecs
    ensures Next(cfg, w, Poll(s, now, true)) == w.(mem := w.mem[s := SurfaceState(Truth(cfg, w, s), now, 0, None)])
  {
    hide BucketOf;
    assert w.trials + [] == w.trials && w.history + [] == w.history;
  }

  lemma TooSoon(cfg: Config, w: World, s: string, now: int, healthy: bool)
    requires s in cfg.acts && s in w.mem && now - w.mem[s].polledAt < cfg.pollSecs
    ensures Next(cfg, w, Poll(s, now, healthy)) == w
  {
    hide BucketOf;
    assert w.mem[s := w.mem[s]] == w.mem && w.trials + [] == w.trials && w.history + [] == w.history;
  }

  function SomeNeed(s: string, target: string, now: int): Step {
    TendNeed(s, now, "thread-0001", "candidate-0001", target, 0, true, true, true)
  }

  /** What the need's act leaves behind. */
  function ActOf(cfg: Config, w: World, s: string, target: string, now: int): PendingAct
    requires s in cfg.acts
  {
    PendingAct(Thread("thread-0001"), "candidate-0001", target, Truth(cfg, w, s), now, 0)
  }

  lemma ActLands(cfg: Config, w: World, s: string, target: string, now: int)
    requires s in cfg.acts && target in cfg.acts[s].actions && target != Truth(cfg, w, s)
    requires Mem(w, s).act.None? && Mem(w, s).restUntil <= now
    ensures var v := Next(cfg, w, SomeNeed(s, target, now)); var act := ActOf(cfg, w, s, target, now);
      && v.mem == w.mem[s := Mem(w, s).(bucket := target, act := Some(act))]
      && v.history == w.history + [Opened(s, act)] && v.trials == w.trials && v.rules == w.rules
      && Look(v, s) == cfg.effect(s, target, Look(w, s))
  {
    hide BucketOf;
  }

  lemma Blamed(cfg: Config, v: World, s: string, act: PendingAct, now: int)
    requires s in cfg.acts && Mem(v, s).act == Some(act) && now - Mem(v, s).polledAt >= cfg.pollSecs
    requires now - act.at <= cfg.windowSecs && act.candidate != "" && act.pursuit.Thread?
    requires Mem(v, s).bucket == act.target != "" && act.target != Truth(cfg, v, s)
    ensures var z := Next(cfg, v, Poll(s, now, true));
      && z.history == v.history + [Adjusted(s, Truth(cfg, v, s)), Undone(s, act, now)]
      && z.trials == v.trials + [Trial(act.candidate, false)]
  {
    hide BucketOf;
    var m := PollMove(cfg, s, Mem(v, s), now, Seen(cfg, v, s, true));
    assert Told(s, m) == [Adjusted(s, Truth(cfg, v, s)), Undone(s, act, now)];
  }

  lemma RunOfFour(cfg: Config, w: World, a: Step, b: Step, c: Step, d: Step)
    ensures Run(cfg, w, [a, b, c, d]) == Next(cfg, Next(cfg, Next(cfg, Next(cfg, w, a), b), c), d)
  {
    hide Next;
    RunAppend(cfg, w, [], a);
    RunAppend(cfg, w, [a], b);
    RunAppend(cfg, w, [a, b], c);
    RunAppend(cfg, w, [a, b, c], d);
    assert [] + [a] == [a] && [a] + [b] == [a, b] && [a, b] + [c] == [a, b, c] && [a, b, c] + [d] == [a, b, c, d];
  }

  lemma OneReport(s: string, act: PendingAct, bucket: string, at: int)
    ensures Adjustments([] + [Opened(s, act)] + [Adjusted(s, bucket), Undone(s, act, at)], s) == 1
  {
    var h := [] + [Opened(s, act)];
    var m := Stay(UNSEEN).(adjusted := Some(bucket), verdict := Some(Undone(s, act, at)));
    assert h + Told(s, m) == h + [Adjusted(s, bucket), Undone(s, act, at)];
    ToldAdjustments(h, s, m, s);
    assert h[..0] == [];
  }

  /** An act that lands elsewhere is taken for a human's reversal at the next poll, and its
      candidate for a failure, though nobody touched anything: a surface is polled, a need
      acts in the last second before the next poll is due, and that poll finds the device
      elsewhere one second into the window, however long poll period and window are. */
  lemma {:induction false} OwnActBlamed(cfg: Config, s: string, target: string) returns (steps: seq<Step>)
    requires Honest(cfg) && Sane(cfg)
    requires s in cfg.acts && target in cfg.acts[s].actions && target != "" && target !in Names(cfg.acts[s])
    ensures NobodyTouched(steps) && InTicks(steps) && Adjustments(Run(cfg, NOWHERE, steps).history, s) == 1
    ensures Trial("candidate-0001", false) in Run(cfg, NOWHERE, steps).trials
  {
    hide Next, BucketOf, Run, OpenOn;
    var p := cfg.pollSecs;
    var first, skipped, tend, last := Poll(s, p, true), Poll(s, 2 * p - 1, true), SomeNeed(s, target, 2 * p - 1), Poll(s, 2 * p, true);
    steps := [first, skipped, tend, last];
    assert PollsAt(steps[1], s, steps[2].now);
    FirstSight(cfg, NOWHERE, s, p);
    var u := Next(cfg, NOWHERE, first);
    TooSoon(cfg, u, s, 2 * p - 1, true);
    RevertMapIsClosed(cfg.acts[s], Look(u, s));
    ActLands(cfg, u, s, target, 2 * p - 1);
    var v := Next(cfg, u, tend);
    RevertMapIsClosed(cfg.acts[s], Look(v, s));
    Blamed(cfg, v, s, ActOf(cfg, u, s, target, 2 * p - 1), 2 * p);
    RunOfFour(cfg, NOWHERE, first, skipped, tend, last);
    var z := Run(cfg, NOWHERE, steps);
    OneReport(s, ActOf(cfg, u, s, target, 2 * p - 1), Truth(cfg, v, s), 2 * p);
    assert z.trials[|v.trials|] == Trial("candidate-0001", false);
  }

  /** MAIN. Self-debounce, surface by surface: from any world and over any run, the poller never
      reports more adjustments of a surface than humans have touched it (and one for a doubt
      there was at the start), whatever the familiar, a partner or the CLI do to it and humans
      to the others -- exactly when every action of the surface lands in the bucket it is named
      after. */
  lemma {:induction false} KnowsItsOwnHand(cfg: Config, s: string)
    requires Honest(cfg) && Sane(cfg) && s in cfg.acts
    ensures Lands(cfg, s) <==> forall w, steps | Accounted(cfg, w) :: Answered(cfg, w, steps, s)
  {
    if Lands(cfg, s) {
      forall w, steps | Accounted(cfg, w) ensures Answered(cfg, w, steps, s) { RunIsKnown(cfg, w, steps, s); }
    } else {
      var target :| target in cfg.acts[s].actions && target != "" && target !in Names(cfg.acts[s]);
      var steps := OwnActBlamed(cfg, s, target);
      FreshAccounts(cfg, NOWHERE);
      NoTouches(steps, s);
      assert !Answered(cfg, NOWHERE, steps, s);
    }
  }

  ghost predicate Untouched(steps: seq<Step>, s: string) { forall i | 0 <= i < |steps| :: !Touches(steps[i], s) }

  ghost predicate NobodyTouched(steps: seq<Step>) { forall i | 0 <= i < |steps| :: !steps[i].Touched? }

  lemma {:induction false} NoTouches(steps: seq<Step>, s: string)
    requires Untouched(steps, s)
    ensures TouchCount(steps, s) == 0
    decreases |steps|
  {
    if steps != [] { NoTouches(steps[..|steps| - 1], s); }
  }

  /** So while nobody touches a surface whose bucket is known, it stays known, and polling
      reports nothing of it. */
  lemma UntouchedStretch(cfg: Config, w: World, steps: seq<Step>, s: string)
    requires Honest(cfg) && s in cfg.acts && Lands(cfg, s) && Accounted(cfg, w) && Knows(cfg, w, s) && Untouched(steps, s)
    ensures Knows(cfg, Run(cfg, w, steps), s)
    ensures Adjustments(Run(cfg, w, steps).history, s) == Adjustments(w.history, s)
  {
    hide Run, Next, Adjustments, Knows, Accounted;
    RunIsKnown(cfg, w, steps, s);
    NoTouches(steps, s);
  }

  ghost predicate ActsLand(cfg: Config) { forall s | s in cfg.acts :: Lands(cfg, s) }

  ghost predicate Quiet(cfg: Config, w: World) {
    forall s | s in cfg.acts :: Knows(cfg, w, s) && Adjustments(w.history, s) == 0
  }

  /** And in any run in which nobody touches a device, all buckets are known and polling
      reports nothing, exactly when every action declared lands where its name says. */
  lemma {:induction false} NeverMistakesItsOwnHand(cfg: Config)
    requires Honest(cfg) && Sane(cfg)
    ensures ActsLand(cfg) <==> forall w, steps | Fresh(w) && NobodyTouched(steps) :: Quiet(cfg, Run(cfg, w, steps))
  {
    if ActsLand(cfg) {
      forall w, steps, s | Fresh(w) && NobodyTouched(steps) && s in cfg.acts
        ensures Knows(cfg, Run(cfg, w, steps), s) && Adjustments(Run(cfg, w, steps).history, s) == 0 {
        assert Lands(cfg, s);
        FreshAccounts(cfg, w);
        UntouchedStretch(cfg, w, steps, s);
      }
    } else {
      var s :| s in cfg.acts && !Lands(cfg, s);
      var target :| target in cfg.acts[s].actions && target != "" && target !in Names(cfg.acts[s]);
      var steps := OwnActBlamed(cfg, s, target);
      assert Fresh(NOWHERE) && !Quiet(cfg, Run(cfg, NOWHERE, steps));
    }
  }

  // --------------------------------------------------------------------------------- rest

  ghost predicate ClockRuns(steps: seq<Step>) { forall i, j | 0 <= i < j < |steps| :: steps[i].now <= steps[j].now }

  /** Whatever opened on a surface after an undo there, opened a rest later. */
  ghost predicate Spaced(h: seq<Event>) {
    forall i, j | 0 <= i < j < |h| && h[i].Undone? && h[j].Opened? && h[i].surface == h[j].surface ::
      h[j].act.at >= h[i].at + ACTUATOR_REST_SECS
  }

  /** A surface with an undo behind it rests until it has lasted. */
  ghost predicate Resting(w: World, clock: int) {
    forall i | 0 <= i < |w.history| && w.history[i].Undone? ::
      w.history[i].at <= clock && Mem(w, w.history[i].surface).restUntil >= w.history[i].at + ACTUATOR_REST_SECS
  }

  /** What a move does to rest: an undo sets it, an opening had to wait for it, and nothing
      else touches it. */
  predicate RestRule(s: string, st: SurfaceState, m: Move, now: int) {
    match m.verdict
    case Some(Undone(x, _, at)) => x == s && at == now && m.st.restUntil == now + ACTUATOR_REST_SECS
    case Some(Opened(x, act)) => x == s && act.at == now && st.restUntil <= now && m.st.restUntil == st.restUntil
    case Some(Adjusted(_, _)) => false
    case _ => m.st.restUntil == st.restUntil
  }

  lemma MoveRests(cfg: Config, w: World, step: Step)
    requires MoveOf(cfg, w, step).Some?
    ensures var (s, m) := MoveOf(cfg, w, step).value; RestRule(s, Mem(w, s), m, step.now)
  {
    hide BucketOf, Reacted, SaidNo, ThreadOf;
  }

  lemma ToldKeepsRest(w: World, s: string, m: Move, now: int, clock: int, v: World)
    requires Resting(w, clock) && clock <= now && RestRule(s, Mem(w, s), m, now)
    requires v.mem == w.mem[s := m.st] && v.history == w.history + Told(s, m)
    ensures Resting(v, now)
  {
    forall i | 0 <= i < |v.history| && v.history[i].Undone?
      ensures v.history[i].at <= now && Mem(v, v.history[i].surface).restUntil >= v.history[i].at + ACTUATOR_REST_SECS {
      if i < |w.history| { assert v.history[i] == w.history[i]; }
    }
  }

  lemma ToldIsSpaced(w: World, s: string, m: Move, now: int, clock: int)
    requires Resting(w, clock) && Spaced(w.history) && RestRule(s, Mem(w, s), m, now)
    ensures Spaced(w.history + Told(s, m))
  {
    var h, g := w.history, w.history + Told(s, m);
    forall i, j | 0 <= i < j < |g| && g[i].Undone? && g[j].Opened? && g[i].surface == g[j].surface
      ensures g[j].act.at >= g[i].at + ACTUATOR_REST_SECS {
      if i < |h| {
        assert g[i] == h[i];
        if j < |h| { assert g[j] == h[j]; }
      }
    }
  }

  lemma {:induction false} NextRests(cfg: Config, w: World, step: Step, clock: int)
    requires Resting(w, clock) && Spaced(w.history) && clock <= step.now
    ensures Resting(Next(cfg, w, step), step.now) && Spaced(Next(cfg, w, step).history)
  {
    hide MoveOf, RulesAfter, Effects, Told;
    if MoveOf(cfg, w, step).Some? {
      var (s, m) := MoveOf(cfg, w, step).value;
      MoveRests(cfg, w, step);
      ToldKeepsRest(w, s, m, step.now, clock, Next(cfg, w, step));
      ToldIsSpaced(w, s, m, step.now, clock);
    }
  }

  lemma {:induction false} RunRests(cfg: Config, w: World, steps: seq<Step>)
    requires Fresh(w) && ClockRuns(steps) && steps != []
    ensures var v := Run(cfg, w, steps); Resting(v, steps[|steps| - 1].now) && Spaced(v.history)
    decreases |steps|
  {
    var before, now := steps[..|steps| - 1], steps[|steps| - 1].now;
    if before != [] {
      RunRests(cfg, w, before);
      NextRests(cfg, Run(cfg, w, before), steps[|steps| - 1], before[|before| - 1].now);
    } else {
      NextRests(cfg, w, steps[0], now);
    }
  }

  /** MAIN. Rest after rejection: on a clock that does not go back, no need and no rule acts on
      a surface within six hours of any undo there, by hand, by words or by the CLI. */
  lemma {:induction false} RejectionIsGivenRest(cfg: Config, w: World, steps: seq<Step>)
    requires Fresh(w) && ClockRuns(steps)
    ensures Spaced(Run(cfg, w, steps).history)
  {
    if steps != [] { RunRests(cfg, w, steps); }
  }

  /** Each step is about one surface at most: it leaves every other one, remembered or real,
      and reports nothing of it. */
  lemma {:induction false} OtherSurfacesUntouched(cfg: Config, w: World, step: Step) returns (s: string)
    ensures forall x | x != s :: Mem(Next(cfg, w, step), x) == Mem(w, x) && Look(Next(cfg, w, step), x) == Look(w, x)
    ensures forall e | e in Since(w, Next(cfg, w, step)) :: e.surface == s
  {
    hide RulesAfter, MoveOf;
    if MoveOf(cfg, w, step).Some? {
      s := MoveOf(cfg, w, step).value.0;
      MoveNamesItsSurface(cfg, w, step);
      assert Since(w, Next(cfg, w, step)) == Told(s, MoveOf(cfg, w, step).value.1);
    } else {
      s := if step.Touched? then step.surface else "";
    }
  }

  lemma MoveNamesItsSurface(cfg: Config, w: World, step: Step)
    requires MoveOf(cfg, w, step).Some?
    ensures var (s, m) := MoveOf(cfg, w, step).value; m.verdict.Some? ==> m.verdict.value.surface == s
  {
    hide BucketOf, Reacted, SaidNo, ThreadOf;
  }

  // --------------------------------------------------------------------------------- undo

  /** Step `i` opened the act that is open at the end, on the bucket the device was in, and
      it has stayed open since. */
  ghost predicate OpenedAt(cfg: Config, w: World, steps: seq<Step>, s: string, act: PendingAct, i: nat)
    requires s in cfg.acts
  {
    && i < |steps|
    && Mem(Run(cfg, w, steps[..i]), s).act.None?
    && act.prev == Truth(cfg, Run(cfg, w, steps[..i]), s)
    && forall j | i < j <= |steps| :: Mem(Run(cfg, w, steps[..j]), s).act == Some(act)
  }

  lemma MoveOpens(cfg: Config, w: World, step: Step, s: string)
    requires s in cfg.acts
    ensures var after := Mem(Next(cfg, w, step), s).act;
      after.Some? && after != Mem(w, s).act ==> Mem(w, s).act.None? && after.value.prev == Truth(cfg, w, s)
  {
    hide BucketOf, RulesAfter, Reacted, SaidNo, ThreadOf;
  }

  lemma {:induction false} StillOpen(cfg: Config, w: World, steps: seq<Step>, step: Step, s: string, act: PendingAct, i: nat)
    requires s in cfg.acts && OpenedAt(cfg, w, steps, s, act, i) && Mem(Run(cfg, w, steps + [step]), s).act == Some(act)
    ensures OpenedAt(cfg, w, steps + [step], s, act, i)
  {
    hide Run, Truth, Mem;
    var all := steps + [step];
    assert all[..i] == steps[..i];
    forall j | i < j <= |all| ensures Mem(Run(cfg, w, all[..j]), s).act == Some(act) {
      assert all[..j] == if j <= |steps| then steps[..j] else all;
    }
  }

  lemma {:induction false} JustOpened(cfg: Config, w: World, steps: seq<Step>, step: Step, s: string, act: PendingAct)
    requires s in cfg.acts && Mem(Run(cfg, w, steps + [step]), s).act == Some(act) != Mem(Run(cfg, w, steps), s).act
    ensures OpenedAt(cfg, w, steps + [step], s, act, |steps|)
  {
    RunAppend(cfg, w, steps, step);
    hide Run, Next, Truth, Mem;
    MoveOpens(cfg, Run(cfg, w, steps), step, s);
    var all := steps + [step];
    assert all[..|steps|] == steps && all[..|all|] == all;
  }

  lemma NothingOpenYet(cfg: Config, w: World, s: string)
    requires Fresh(w)
    ensures Mem(Run(cfg, w, []), s).act.None?
  {}

  lemma {:induction false} OpeningStep(cfg: Config, w: World, steps: seq<Step>, s: string) returns (i: nat)
    requires s in cfg.acts && Fresh(w) && Mem(Run(cfg, w, steps), s).act.Some?
    ensures OpenedAt(cfg, w, steps, s, Mem(Run(cfg, w, steps), s).act.value, i)
    decreases |steps|
  {
    hide Run, Next, Truth, Mem, OpenedAt;
    if steps == [] {
      NothingOpenYet(cfg, w, s);
      assert false;
    }
    var before, step := steps[..|steps| - 1], steps[|steps| - 1];
    var act := Mem(Run(cfg, w, steps), s).act;
    assert steps == before + [step];
    if Mem(Run(cfg, w, before), s).act == act {
      i := OpeningStep(cfg, w, before, s);
      StillOpen(cfg, w, before, step, s, act.value, i);
    } else {
      i := |before|;
      JustOpened(cfg, w, before, step, s, act.value);
    }
  }

  /** The no was heard and the revert worked. */
  ghost predicate TakesBack(cfg: Config, w: World, step: Step) {
    && step.Heed? && step.surface in cfg.acts
    && Next(cfg, w, step).history == w.history + [Undone(step.surface, OpenAct(w, step.surface), step.now)]
  }

  function OpenAct(w: World, s: string): PendingAct {
    if Mem(w, s).act.Some? then Mem(w, s).act.value else PendingAct(Thread(""), "", "", "", 0, 0)
  }

  /** MAIN. Undo is exact: a no that is heard leaves the device in the bucket it was in just
      before the act, whatever moved it in between. */
  lemma {:induction false} UndoRestores(cfg: Config, w: World, steps: seq<Step>, last: Step)
    requires Honest(cfg) && Fresh(w) && TakesBack(cfg, Run(cfg, w, steps), last)
    ensures exists i: nat ::
      && OpenedAt(cfg, w, steps, last.surface, OpenAct(Run(cfg, w, steps), last.surface), i)
      && Truth(cfg, Run(cfg, w, steps + [last]), last.surface) == Truth(cfg, Run(cfg, w, steps[..i]), last.surface)
  {
    var v, s := Run(cfg, w, steps), last.surface;
    RunAppend(cfg, w, steps, last);
    FreshAccounts(cfg, w);
    RunAccounts(cfg, w, steps);
    HeedUndoes(cfg, v, last);
    var i := OpeningStep(cfg, w, steps, s);
  }

  lemma HeedUndoes(cfg: Config, v: World, step: Step)
    requires Honest(cfg) && AllUndoable(cfg, v) && TakesBack(cfg, v, step)
    ensures Mem(v, step.surface).act.Some? && Truth(cfg, Next(cfg, v, step), step.surface) == OpenAct(v, step.surface).prev
  {
    hide BucketOf, RulesAfter, Reacted, SaidNo, ThreadOf;
    var s := step.surface;
    assert Next(cfg, v, step).history != v.history;
    assert s in v.mem;
    var m := HeedMove(s, v.mem[s], step.now, step.threads, step.gated, step.reverts);
    assert Told(s, m) == [m.verdict.value] && Next(cfg, v, step).history[|v.history|] == m.verdict.value;
    assert Undoable(cfg.acts[s], OpenAct(v, s));
    assert m.ran == Some(OpenAct(v, s).prev);
  }
}
