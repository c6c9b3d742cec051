/** The code of the actuation loop: it keeps the memory of every surface in one map and takes
    the steps of `Actuation` one surface, need or rule at a time.

    `device` is the physical world, seen through the state command and moved by the acts'
    commands; which of those commands are healthy is decided outside. */
module Hand {

  import opened Declaration
  import opened ReactionRules
  import opened Actuation
  import opened Reactions
  import opened Wrappers

  /** The words that name a surface (its own and its keywords), and its acts in order. */
  datatype Vocabulary = Vocabulary(names: set<string>, acts: seq<string>)

  /** A thread of needs: whether it is pursued, the human it began with, and the words of its
      direction. The last three say what the guard, the state command and the act answer. */
  datatype Need = Need(thread: string, pursued: bool, human: string, words: set<string>, answers: nat,
                       permitted: bool, healthy: bool, runs: bool)

  /** A candidate and the loop or thread it was made for. */
  datatype Candidate = Candidate(id: string, loop: string)

  /** A standing rule whose trigger fired. */
  datatype Firing = Firing(row: nat, permitted: bool, healthy: bool, runs: bool)

  function PollSteps(surfaces: seq<string>, now: int, healthy: set<string>): seq<Step> {
    seq(|surfaces|, i requires 0 <= i < |surfaces| => Poll(surfaces[i], now, surfaces[i] in healthy))
  }

  function HeedSteps(surfaces: seq<string>, now: int, threads: map<string, ThreadView>, gated: bool, reverts: set<string>): seq<Step> {
    seq(|surfaces|, i requires 0 <= i < |surfaces| => Heed(surfaces[i], now, threads, gated, surfaces[i] in reverts))
  }

  function FirstAct(acts: seq<string>, words: set<string>): (r: Option<string>)
    ensures r.Some? ==> r.value in acts && r.value in words
    ensures r.None? <==> forall l | l in acts :: l !in words
    ensures r.Some? ==> exists i :: 0 <= i < |acts| && acts[i] == r.value && forall j | 0 <= j < i :: acts[j] !in words
  {
    if acts == [] then None
    else if acts[0] in words then Some(acts[0])
    else
      var r := FirstAct(acts[1..], words);
      assert forall i | 0 <= i < |acts| - 1 :: acts[1..][i] == acts[i + 1];
      r
  }

  /** A direction speaks to a surface when it names it and one of its acts. */
  predicate Speaks(vocabulary: map<string, Vocabulary>, s: string, words: set<string>) {
    s in vocabulary && vocabulary[s].names * words != {} && exists l :: l in vocabulary[s].acts && l in words
  }

  predicate FirstToSpeak(surfaces: seq<string>, vocabulary: map<string, Vocabulary>, words: set<string>, i: int) {
    0 <= i < |surfaces| && Speaks(vocabulary, surfaces[i], words) && forall j | 0 <= j < i :: !Speaks(vocabulary, surfaces[j], words)
  }

  /** The first surface the words speak to, with the first of its acts they name. */
  function Pick(surfaces: seq<string>, vocabulary: map<string, Vocabulary>, words: set<string>): (r: Option<(string, string)>)
    ensures r.None? <==> forall s | s in surfaces :: !Speaks(vocabulary, s, words)
    ensures r.Some? ==> r.value.0 in surfaces && Speaks(vocabulary, r.value.0, words)
                        && FirstAct(vocabulary[r.value.0].acts, words) == Some(r.value.1)
    ensures r.Some? ==> exists i :: FirstToSpeak(surfaces, vocabulary, words, i) && surfaces[i] == r.value.0
  {
    if surfaces == [] then None
    else if Speaks(vocabulary, surfaces[0], words)
    then
      assert FirstToSpeak(surfaces, vocabulary, words, 0);
      Some((surfaces[0], FirstAct(vocabulary[surfaces[0]].acts, words).value))
    else
      assert forall i :: FirstToSpeak(surfaces[1..], vocabulary, words, i) ==> FirstToSpeak(surfaces, vocabulary, words, i + 1);
      Pick(surfaces[1..], vocabulary, words)
  }

  predicate Newest(candidates: seq<Candidate>, loop: string, i: int) {
    0 <= i < |candidates| && candidates[i].loop == loop && forall j | i < j < |candidates| :: candidates[j].loop != loop
  }

  /** The newest candidate made for this thread, or nobody. */
  function NewestFor(candidates: seq<Candidate>, loop: string): (id: string)
    ensures id == "" || Candidate(id, loop) in candidates
  {
    if candidates == [] then ""
    else if candidates[|candidates| - 1].loop == loop then candidates[|candidates| - 1].id
    else NewestFor(candidates[..|candidates| - 1], loop)
  }

  lemma {:induction false} NewestIs(candidates: seq<Candidate>, loop: string, i: int)
    requires Newest(candidates, loop, i)
    ensures NewestFor(candidates, loop) == candidates[i].id
    decreases |candidates|
  {
    var n := |candidates| - 1;
    if i < n {
      assert candidates[n].loop != loop;
      assert forall j | i < j < n :: candidates[..n][j] == candidates[j];
      NewestIs(candidates[..n], loop, i);
    }
  }

  lemma {:induction false} NobodyFor(candidates: seq<Candidate>, loop: string)
    requires forall j | 0 <= j < |candidates| :: candidates[j].loop != loop
    ensures NewestFor(candidates, loop) == ""
    decreases |candidates|
  {
    if candidates != [] { NobodyFor(candidates[..|candidates| - 1], loop); }
  }

  /** The step a need calls for, if it is pursued for a human and its words pick an act. */
  function NeedStep(surfaces: seq<string>, vocabulary: map<string, Vocabulary>, candidates: seq<Candidate>, n: Need, now: int): seq<Step> {
    if !n.pursued || n.human == "" then []
    else match Pick(surfaces, vocabulary, n.words)
      case None => []
      case Some((s, target)) =>
        [TendNeed(s, now, n.thread, NewestFor(candidates, n.thread), target, n.answers, n.permitted, n.healthy, n.runs)]
  }

  /** A need acts exactly when it is pursued, began with a human, and speaks to some surface; and
      then on the first surface it speaks to, with the first act it names there and the newest
      candidate of its thread. */
  lemma NeedActs(surfaces: seq<string>, vocabulary: map<string, Vocabulary>, candidates: seq<Candidate>, n: Need, now: int)
    ensures var steps := NeedStep(surfaces, vocabulary, candidates, n, now);
      && (steps != [] <==> n.pursued && n.human != "" && exists s :: s in surfaces && Speaks(vocabulary, s, n.words))
      && (steps != [] ==>
            && |steps| == 1 && steps[0].TendNeed? && steps[0].now == now && steps[0].thread == n.thread && steps[0].answers == n.answers
            && steps[0].permitted == n.permitted && steps[0].healthy == n.healthy && steps[0].runs == n.runs
            && (exists i :: FirstToSpeak(surfaces, vocabulary, n.words, i) && steps[0].surface == surfaces[i])
            && FirstNamed(vocabulary, steps[0].surface, n.words, steps[0].target)
            && (forall i | Newest(candidates, n.thread, i) :: steps[0].candidate == candidates[i].id)
            && ((forall j | 0 <= j < |candidates| :: candidates[j].loop != n.thread) ==> steps[0].candidate == ""))
  {
    forall i | Newest(candidates, n.thread, i) ensures NewestFor(candidates, n.thread) == candidates[i].id {
      NewestIs(candidates, n.thread, i);
    }
    if forall j | 0 <= j < |candidates| :: candidates[j].loop != n.thread { NobodyFor(candidates, n.thread); }
    hide NewestFor;
    var picked := Pick(surfaces, vocabulary, n.words);
    if picked.Some? { assert FirstNamed(vocabulary, picked.value.0, n.words, picked.value.1); }
  }

  /** The first act of the surface that the words name. */
  ghost predicate FirstNamed(vocabulary: map<string, Vocabulary>, s: string, words: set<string>, act: string) {
    s in vocabulary && exists i :: 0 <= i < |vocabulary[s].acts| && vocabulary[s].acts[i] == act && act in words
                                   && forall j | 0 <= j < i :: vocabulary[s].acts[j] !in words
  }

  function NeedSteps(surfaces: seq<string>, vocabulary: map<string, Vocabulary>, candidates: seq<Candidate>, needs: seq<Need>, now: int): seq<Step> {
    if needs == [] then []
    else NeedSteps(surfaces, vocabulary, candidates, needs[..|needs| - 1], now)
         + NeedStep(surfaces, vocabulary, candidates, needs[|needs| - 1], now)
  }

  function RuleStep(f: Firing, now: int): Step { TendRule(f.row, now, f.permitted, f.healthy, f.runs) }

  function RuleSteps(fired: seq<Firing>, now: int): seq<Step> {
    seq(|fired|, i requires 0 <= i < |fired| => RuleStep(fired[i], now))
  }

  /** What one tick finds: which reads and reverts work, what the threads say, what is needed
      and which rules fire. */
  datatype Tick = Tick(now: int, healthy: set<string>, threads: map<string, ThreadView>, gated: bool, reverts: set<string>,
                       candidates: seq<Candidate>, needs: seq<Need>, fired: seq<Firing>)

  /** Poll, heed, tend, and fire the rules. */
  function TickSteps(surfaces: seq<string>, vocabulary: map<string, Vocabulary>, t: Tick): seq<Step> {
    PollSteps(surfaces, t.now, t.healthy) + HeedSteps(surfaces, t.now, t.threads, t.gated, t.reverts)
    + NeedSteps(surfaces, vocabulary, t.candidates, t.needs, t.now) + RuleSteps(t.fired, t.now)
  }

  function TicksSteps(surfaces: seq<string>, vocabulary: map<string, Vocabulary>, ts: seq<Tick>): seq<Step> {
    if ts == [] then []
    else TicksSteps(surfaces, vocabulary, ts[..|ts| - 1]) + TickSteps(surfaces, vocabulary, ts[|ts| - 1])
  }

  lemma {:induction false} NeedsAreHandsOff(surfaces: seq<string>, vocabulary: map<string, Vocabulary>, candidates: seq<Candidate>,
                                            needs: seq<Need>, now: int, s: string)
    ensures AllHandsOff(NeedSteps(surfaces, vocabulary, candidates, needs, now), s)
  {
    hide Pick, NewestFor;
    if needs != [] { NeedsAreHandsOff(surfaces, vocabulary, candidates, needs[..|needs| - 1], now, s); }
  }

  lemma {:induction false} TicksAreHandsOff(surfaces: seq<string>, vocabulary: map<string, Vocabulary>, ts: seq<Tick>, s: string)
    ensures AllHandsOff(TicksSteps(surfaces, vocabulary, ts), s)
  {
    hide NeedStep;
    if ts != [] {
      var t := ts[|ts| - 1];
      TicksAreHandsOff(surfaces, vocabulary, ts[..|ts| - 1], s);
      NeedsAreHandsOff(surfaces, vocabulary, t.candidates, t.needs, t.now, s);
    }
  }

  lemma {:induction false} NeedsTend(surfaces: seq<string>, vocabulary: map<string, Vocabulary>, candidates: seq<Candidate>,
                                     needs: seq<Need>, now: int)
    ensures forall i | 0 <= i < |NeedSteps(surfaces, vocabulary, candidates, needs, now)| ::
              var step := NeedSteps(surfaces, vocabulary, candidates, needs, now)[i];
              step.TendNeed? && step.now == now && step.surface in surfaces
  {
    if needs != [] {
      NeedsTend(surfaces, vocabulary, candidates, needs[..|needs| - 1], now);
      NeedActs(surfaces, vocabulary, candidates, needs[|needs| - 1], now);
      hide NeedStep, FirstNamed, Newest;
    }
  }

  /** Polls of all these surfaces first, then steps of later phases in order. */
  lemma OrderedPhases(surfaces: seq<string>, a: seq<Step>, b: seq<Step>, c: seq<Step>, d: seq<Step>, now: int)
    requires |a| == |surfaces| && forall i | 0 <= i < |a| :: PollsAt(a[i], surfaces[i], now)
    requires forall i | 0 <= i < |b| :: b[i].Heed? && b[i].now == now && b[i].surface in surfaces
    requires forall i | 0 <= i < |c| :: c[i].TendNeed? && c[i].now == now && c[i].surface in surfaces
    requires forall i | 0 <= i < |d| :: d[i].TendRule? && d[i].now == now
    ensures InTicks(a + b + c + d) && forall i | 0 <= i < |a + b + c + d| :: (a + b + c + d)[i].now == now
  {
    var all := a + b + c + d;
    forall i | 0 <= i < |all| ensures all[i].now == now && Phase(all[i]) ==
      if i < |a| then 0 else if i < |a| + |b| then 1 else if i < |a| + |b| + |c| then 2 else 3 {}
    forall j | 0 <= j < |all| && (all[j].Heed? || all[j].TendNeed?)
      ensures exists i :: 0 <= i < j && PollsAt(all[i], all[j].surface, all[j].now) {
      assert |a| <= j && all[j].surface in surfaces;
      var i :| 0 <= i < |surfaces| && surfaces[i] == all[j].surface;
      assert all[i] == a[i] && PollsAt(all[i], all[j].surface, all[j].now);
    }
  }

  lemma LaterTicks(a: seq<Step>, b: seq<Step>)
    requires InTicks(a) && InTicks(b) && forall i, j | 0 <= i < |a| && 0 <= j < |b| :: a[i].now < b[j].now
    ensures InTicks(a + b)
  {
    hide Phase, PollsAt;
    var all := a + b;
    assert forall i | 0 <= i < |a| :: all[i] == a[i];
    assert forall i | |a| <= i < |all| :: all[i] == b[i - |a|];
    forall j | 0 <= j < |all| && (all[j].Heed? || all[j].TendNeed?)
      ensures exists i :: 0 <= i < j && PollsAt(all[i], all[j].surface, all[j].now) {
      if j < |a| {
        var i :| 0 <= i < j && PollsAt(a[i], a[j].surface, a[j].now);
        assert PollsAt(all[i], all[j].surface, all[j].now);
      } else {
        var i :| 0 <= i < j - |a| && PollsAt(b[i], b[j - |a|].surface, b[j - |a|].now);
        assert PollsAt(all[i + |a|], all[j].surface, all[j].now);
      }
    }
  }

  /** The steps of one tick after another are steps that ticks can take: each surface polled
      before it is heeded, and heeded before it is tended, as the shown runs assume. */
  lemma {:induction false} TicksAreInOrder(surfaces: seq<string>, vocabulary: map<string, Vocabulary>, ts: seq<Tick>)
    requires forall i, j | 0 <= i < j < |ts| :: ts[i].now < ts[j].now
    ensures InTicks(TicksSteps(surfaces, vocabulary, ts))
    ensures forall i | 0 <= i < |TicksSteps(surfaces, vocabulary, ts)| ::
              ts != [] && TicksSteps(surfaces, vocabulary, ts)[i].now <= ts[|ts| - 1].now
    decreases |ts|
  {
    if ts != [] {
      var n := |ts| - 1;
      var t := ts[n];
      TicksAreInOrder(surfaces, vocabulary, ts[..n]);
      NeedsTend(surfaces, vocabulary, t.candidates, t.needs, t.now);
      OrderedPhases(surfaces, PollSteps(surfaces, t.now, t.healthy), HeedSteps(surfaces, t.now, t.threads, t.gated, t.reverts),
                    NeedSteps(surfaces, vocabulary, t.candidates, t.needs, t.now), RuleSteps(t.fired, t.now), t.now);
      hide InTicks, PollSteps, HeedSteps, NeedSteps, RuleSteps;
      LaterTicks(TicksSteps(surfaces, vocabulary, ts[..n]), TickSteps(surfaces, vocabulary, t));
    }
  }

  /** MAIN. Stranding, over whole ticks as the daemon runs them: after a partner has moved a
      surface with an open act into a bucket, any number of ticks ends the act if and only if
      in one of them words are heard that end it, or the bucket is where the act had put it
      and a due, healthy reading comes after the window. */
  lemma {:induction false} TicksStrand(cfg: Config, w: World, s: string, target: string, now: int, surfaces: seq<string>,
                                       vocabulary: map<string, Vocabulary>, ts: seq<Tick>)
    requires Honest(cfg) && s in cfg.acts && target in Names(cfg.acts[s]) && Mem(w, s).act.Some?
    ensures var x, act, steps := Next(cfg, w, Partner(s, now, target, true)), Mem(w, s).act.value, TicksSteps(surfaces, vocabulary, ts);
      var p := Reads(cfg, s, Mem(w, s).polledAt, steps);
      && (EndedSince(x, Run(cfg, x, steps), s, act) <==>
            WordsIn(steps, s, act)
            || (target == act.target && exists i :: 0 <= i < |p.times| && Late(cfg, act, p.times[i])))
      && (!EndedSince(x, Run(cfg, x, steps), s, act) ==> Mem(Run(cfg, x, steps), s).act == Some(act))
  {
    hide Next, Run, EndedSince, WordsIn, TicksSteps, Reads;
    TicksAreHandsOff(surfaces, vocabulary, ts, s);
    PartnerStrands(cfg, w, s, target, now, TicksSteps(surfaces, vocabulary, ts));
  }

  class Hand {
    const cfg: Config
    /** The declared surfaces in the order of the declaration. */
    const surfaces: seq<string>
    const vocabulary: map<string, Vocabulary>
    var state: map<string, SurfaceState>
    var trials: seq<Trial>
    var rules: seq<ReactionRule>
    var device: map<string, Reading>
    ghost var history: seq<Event>

    ghost function View(): World
      reads this
    {
      World(state, device, trials, rules, history)
    }

    ghost predicate Valid()
      reads this
    {
      forall s | s in surfaces :: s in cfg.acts
    }

    constructor (cfg: Config, surfaces: seq<string>, vocabulary: map<string, Vocabulary>, rules: seq<ReactionRule>,
                 device: map<string, Reading>)
      requires forall s | s in surfaces :: s in cfg.acts
      ensures Valid() && this.cfg == cfg && this.surfaces == surfaces && this.vocabulary == vocabulary
      ensures Fresh(View()) && View().rules == rules && View().device == device
    {
      this.cfg, this.surfaces, this.vocabulary, this.rules, this.device := cfg, surfaces, vocabulary, rules, device;
      state, trials, history := map[], [], [];
    }

    method ReadState(s: string, healthy: bool) returns (seen: Option<string>)
      requires s in cfg.acts
      ensures seen == Seen(cfg, View(), s, healthy)
    {
      if !healthy { return None; }
      var reading := if s in device then device[s] else map[];
      seen := Some(BucketOf(cfg.acts[s], reading));
    }

    method RunAct(s: string, target: string)
      modifies `device
      ensures device == Effects(cfg, old(View()), s, Some(target))
    {
      device := device[s := cfg.effect(s, target, if s in device then device[s] else map[])];
    }

    method DemoteAfterReaction(act: PendingAct)
      modifies `trials
      ensures trials == old(trials) + TrialFor(act, false)
    {
      if act.candidate != "" { trials := trials + [Trial(act.candidate, false)]; }
    }

    method CloseActPositive(act: PendingAct)
      modifies `trials
      ensures trials == old(trials) + TrialFor(act, true)
    {
      if act.candidate != "" { trials := trials + [Trial(act.candidate, true)]; }
    }

    /** The human's hand went against an open act: a rule is disabled, or a candidate demoted. */
    method Reverted(act: PendingAct)
      modifies `trials, `rules
      ensures trials == old(trials) + if act.pursuit.Rule? then [] else TrialFor(act, false)
      ensures rules == if act.pursuit.Rule? then DisableReverted(old(rules), act.pursuit.rule) else old(rules)
    {
      match act.pursuit {
        case Rule(id) => rules := DisableReverted(rules, id);
        case Thread(_) => DemoteAfterReaction(act);
      }
    }

    // ------------------------------------------------------------------------ poll

    method PollSurface(s: string, entry: SurfaceState, now: int, healthy: bool)
      returns (st: SurfaceState, ghost told: seq<Event>)
      requires s in cfg.acts
      modifies `trials, `rules
      ensures var m := PollMove(cfg, s, entry, now, Seen(cfg, old(View()), s, healthy));
        st == m.st && told == Told(s, m) && trials == old(trials) + m.trials && rules == RulesAfter(old(rules), m)
    {
      hide BucketOf, DisableReverted, MintPolicy, TrialFor;
      st, told := entry, [];
      if now - st.polledAt < cfg.pollSecs { return; }
      st := st.(polledAt := now);
      var seen := ReadState(s, healthy);
      if seen.None? { return; }
      var bucket := seen.value;
      if st.bucket == "" {
        st := st.(bucket := bucket);
        return;
      }
      if bucket == st.bucket {
        if st.act.Some? {
          var act := st.act.value;
          if now - act.at > cfg.windowSecs && bucket == act.target {
            CloseActPositive(act);
            st := st.(act := None);
            told := [Stood(s, act)];
          }
        }
        return;
      }
      told := [Adjusted(s, bucket)];
      if st.act.Some? {
        var act := st.act.value;
        if now - act.at <= cfg.windowSecs && bucket != act.target {
          Reverted(act);
          st := st.(restUntil := now + ACTUATOR_REST_SECS, act := None);
          told := [Adjusted(s, bucket), Undone(s, act, now)];
        }
      }
      st := st.(bucket := bucket);
    }

    method PollOne(s: string, now: int, healthy: bool)
      requires s in cfg.acts
      modifies this
      ensures View() == Next(cfg, old(View()), Poll(s, now, healthy))
    {
      hide BucketOf, RulesAfter, PollMove, Told;
      ghost var told: seq<Event>;
      var st := if s in state then state[s] else UNSEEN;
      st, told := PollSurface(s, st, now, healthy);
      PollRunsNothing(cfg, s, Mem(old(View()), s), now, Seen(cfg, old(View()), s, healthy));
      state := state[s := st];
      history := history + told;
    }

    method PollActuators(now: int, healthy: set<string>)
      requires Valid()
      modifies this
      ensures Valid() && View() == Run(cfg, old(View()), PollSteps(surfaces, now, healthy))
    {
      hide Next;
      ghost var steps := PollSteps(surfaces, now, healthy);
      for i := 0 to |surfaces|
        invariant View() == Run(cfg, old(View()), steps[..i])
      {
        PollOne(surfaces[i], now, surfaces[i] in healthy);
        RunAppend(cfg, old(View()), steps[..i], steps[i]);
        assert steps[..i + 1] == steps[..i] + [steps[i]];
      }
      assert steps[..|surfaces|] == steps;
    }

    // ------------------------------------------------------------------------ heed

    method HeedSurface(s: string, entry: SurfaceState, now: int, threads: map<string, ThreadView>, gated: bool, reverts: bool)
      returns (st: SurfaceState, ghost told: seq<Event>)
      modifies `trials, `rules, `device
      ensures var m := HeedMove(s, entry, now, threads, gated, reverts);
        && st == m.st && told == Told(s, m) && trials == old(trials) + m.trials && rules == RulesAfter(old(rules), m)
        && device == Effects(cfg, old(View()), s, m.ran)
    {
      hide DisableReverted, MintPolicy, TrialFor;
      st, told := entry, [];
      if st.act.None? { return; }
      var act := st.act.value;
      if act.pursuit.Rule? || act.pursuit.id !in threads { return; }
      var t := threads[act.pursuit.id];
      var replies := NewAnswers(t, act);
      var dismissed := Dismissed(t, act.at);
      if replies == [] && !dismissed { return; }
      if !(dismissed || exists a :: a in replies && a.no) {
        if (exists a :: a in replies && a.yes) && t.proposal.Some? && gated {
          rules := MintPolicy(rules, t.proposal.value, now);
        }
        CloseActPositive(act);
        st := st.(act := None);
        told := [Stood(s, act)];
        return;
      }
      if !reverts { return; }
      RunAct(s, act.prev);
      st := st.(bucket := act.prev);
      DemoteAfterReaction(act);
      st := st.(restUntil := now + ACTUATOR_REST_SECS, act := None);
      told := [Undone(s, act, now)];
    }

    method HeedOne(s: string, now: int, threads: map<string, ThreadView>, gated: bool, reverts: bool)
      requires s in cfg.acts
      modifies this
      ensures View() == Next(cfg, old(View()), Heed(s, now, threads, gated, reverts))
    {
      hide HeedMove, Told, RulesAfter;
      if s !in state { return; }
      ghost var told: seq<Event>;
      var st := state[s];
      st, told := HeedSurface(s, st, now, threads, gated, reverts);
      state := state[s := st];
      history := history + told;
    }

    method HeedReactions(now: int, threads: map<string, ThreadView>, gated: bool, reverts: set<string>)
      requires Valid()
      modifies this
      ensures Valid() && View() == Run(cfg, old(View()), HeedSteps(surfaces, now, threads, gated, reverts))
    {
      hide Next;
      ghost var steps := HeedSteps(surfaces, now, threads, gated, reverts);
      for i := 0 to |surfaces|
        invariant View() == Run(cfg, old(View()), steps[..i])
      {
        HeedOne(surfaces[i], now, threads, gated, surfaces[i] in reverts);
        RunAppend(cfg, old(View()), steps[..i], steps[i]);
        assert steps[..i + 1] == steps[..i] + [steps[i]];
      }
      assert steps[..|surfaces|] == steps;
    }

    // ------------------------------------------------------------------------ tend

    method TendSurface(s: string, entry: SurfaceState, now: int, pursuit: Pursuit, candidate: string, target: string,
                       answers: nat, permitted: bool, healthy: bool, runs: bool)
      returns (st: SurfaceState, ghost told: seq<Event>)
      requires s in cfg.acts
      modifies `device
      ensures var m := TendMove(s, entry, now, pursuit, candidate, target, answers, permitted,
                                Seen(cfg, old(View()), s, healthy), runs);
        st == m.st && told == Told(s, m) && device == Effects(cfg, old(View()), s, m.ran) && m.trials == [] && m.reverted.None? && m.assent.None?
    {
      hide BucketOf;
      st, told := entry, [];
      if st.restUntil > now || st.act.Some? { return; }
      if !permitted { return; }
      var seen := ReadState(s, healthy);
      if seen.None? { return; }
      var prev := seen.value;
      if prev == target { return; }
      if !runs { return; }
      RunAct(s, target);
      var act := PendingAct(pursuit, candidate, target, prev, now, answers);
      st := st.(bucket := target, act := Some(act));
      told := [Opened(s, act)];
    }

    method TendOne(n: Need, candidates: seq<Candidate>, now: int)
      modifies this
      ensures View() == Run(cfg, old(View()), NeedStep(surfaces, vocabulary, candidates, n, now))
    {
      if !n.pursued || n.human == "" { return; }
      var picked := Pick(surfaces, vocabulary, n.words);
      if picked.None? { return; }
      var (s, target) := picked.value;
      var candidate := NewestFor(candidates, n.thread);
      TendPicked(n, s, target, candidate, now);
      RunAppend(cfg, old(View()), [], TendNeed(s, now, n.thread, candidate, target, n.answers, n.permitted, n.healthy, n.runs));
    }

    method TendPicked(n: Need, s: string, target: string, candidate: string, now: int)
      modifies this
      ensures View() == Next(cfg, old(View()), TendNeed(s, now, n.thread, candidate, target, n.answers, n.permitted, n.healthy, n.runs))
    {
      hide TendMove, Told, BucketOf;
      if s !in cfg.acts || target !in cfg.acts[s].actions { return; }
      ghost var told: seq<Event>;
      var st := if s in state then state[s] else UNSEEN;
      st, told := TendSurface(s, st, now, Thread(n.thread), candidate, target, n.answers, n.permitted, n.healthy, n.runs);
      state := state[s := st];
      history := history + told;
    }

    method TendActuators(now: int, needs: seq<Need>, candidates: seq<Candidate>)
      modifies this
      ensures View() == Run(cfg, old(View()), NeedSteps(surfaces, vocabulary, candidates, needs, now))
    {
      hide Next, NeedStep;
      for i := 0 to |needs|
        invariant View() == Run(cfg, old(View()), NeedSteps(surfaces, vocabulary, candidates, needs[..i], now))
      {
        TendOne(needs[i], candidates, now);
        assert needs[..i + 1][..i] == needs[..i];
        RunConcat(cfg, old(View()), NeedSteps(surfaces, vocabulary, candidates, needs[..i], now),
                  NeedStep(surfaces, vocabulary, candidates, needs[i], now));
      }
      assert needs[..|needs|] == needs;
    }

    method FireOne(f: Firing, now: int)
      modifies this
      ensures View() == Next(cfg, old(View()), RuleStep(f, now))
    {
      hide TendMove, Told, BucketOf;
      if f.row >= |rules| || !rules[f.row].enabled { return; }
      var s, target := rules[f.row].surface, rules[f.row].act;
      if s !in cfg.acts || target !in cfg.acts[s].actions { return; }
      ghost var told: seq<Event>;
      var st := if s in state then state[s] else UNSEEN;
      st, told := TendSurface(s, st, now, Rule(rules[f.row].id), "", target, 0, f.permitted, f.healthy, f.runs);
      state := state[s := st];
      history := history + told;
    }

    method TendRules(now: int, fired: seq<Firing>)
      modifies this
      ensures View() == Run(cfg, old(View()), RuleSteps(fired, now))
    {
      hide Next;
      ghost var steps := RuleSteps(fired, now);
      for i := 0 to |fired|
        invariant View() == Run(cfg, old(View()), steps[..i])
      {
        FireOne(fired[i], now);
        RunAppend(cfg, old(View()), steps[..i], steps[i]);
        assert steps[..i + 1] == steps[..i] + [steps[i]];
      }
      assert steps[..|fired|] == steps;
    }

    /** The actuation part of a tick. */
    method RunTick(t: Tick)
      requires Valid()
      modifies this
      ensures Valid() && View() == Run(cfg, old(View()), TickSteps(surfaces, vocabulary, t))
    {
      hide Run, PollSteps, HeedSteps, NeedSteps, RuleSteps;
      PollActuators(t.now, t.healthy);
      HeedReactions(t.now, t.threads, t.gated, t.reverts);
      TendActuators(t.now, t.needs, t.candidates);
      TendRules(t.now, t.fired);
      ghost var a, b := PollSteps(surfaces, t.now, t.healthy), HeedSteps(surfaces, t.now, t.threads, t.gated, t.reverts);
      ghost var c := NeedSteps(surfaces, vocabulary, t.candidates, t.needs, t.now);
      RunConcat(cfg, old(View()), a, b);
      RunConcat(cfg, old(View()), a + b, c);
      RunConcat(cfg, old(View()), a + b + c, RuleSteps(t.fired, t.now));
    }

    // ------------------------------------------------------------ the hand and the partner

    method HandSurface(s: string, entry: SurfaceState, target: string, now: int)
      returns (st: SurfaceState, ghost told: seq<Event>)
      modifies `trials, `rules
      ensures var m := HandMove(s, entry, target, now);
        && st == m.st && told == Told(s, m) && trials == old(trials) + m.trials && rules == RulesAfter(old(rules), m)
        && m.ran == Some(target)
    {
      hide DisableReverted, MintPolicy, TrialFor;
      st, told := entry, [];
      if st.act.Some? {
        var act := st.act.value;
        if target != act.target {
          Reverted(act);
          st := st.(restUntil := now + ACTUATOR_REST_SECS);
          told := [Undone(s, act, now)];
        } else {
          told := [Confirmed(s, act)];
        }
        st := st.(act := None);
      }
      st := st.(bucket := target);
    }

    method ActuateByHand(s: string, target: string, now: int, runs: bool) returns (ok: bool)
      modifies this
      ensures View() == Next(cfg, old(View()), ByHand(s, now, target, runs))
      ensures ok <==> s in cfg.acts && target in cfg.acts[s].actions && runs
    {
      hide HandMove, Told, RulesAfter;
      if s !in cfg.acts || target !in cfg.acts[s].actions || !runs { return false; }
      RunAct(s, target);
      ghost var told: seq<Event>;
      var st := if s in state then state[s] else UNSEEN;
      st, told := HandSurface(s, st, target, now);
      state := state[s := st];
      history := history + told;
      ok := true;
    }

    method PartnerRunAct(s: string, target: string, now: int, runs: bool) returns (ok: bool)
      modifies this
      ensures View() == Next(cfg, old(View()), Partner(s, now, target, runs))
      ensures ok <==> s in cfg.acts && target in cfg.acts[s].actions && runs
    {
      if s !in cfg.acts || target !in cfg.acts[s].actions || !runs { return false; }
      RunAct(s, target);
      var st := if s in state then state[s] else UNSEEN;
      state := state[s := st.(bucket := target)];
      ok := true;
    }
  }

  lemma PollRunsNothing(cfg: Config, s: string, st: SurfaceState, now: int, seen: Option<string>)
    ensures PollMove(cfg, s, st, now, seen).ran.None?
  {
  }
}
