/** A standing rule the human undid by hand is a standing mistake: it goes down with its
    policy, and stays down until the human says otherwise. */
module RuleReversals {
  import opened Declaration
  import opened ReactionRules
  import opened Actuation
  import opened Wrappers

  predicate ActsFor(e: Event, id: nat) { e.Opened? && e.act.pursuit == Rule(id) }

  predicate Reverses(e: Event, id: nat) { e.Undone? && e.act.pursuit == Rule(id) }

  /** What enables row `k` again: the switch on the row its id finds, a mint of its subject,
      trigger and surface, or a policy for its subject and surface, assented to while pending
      or by an explicit yes that the loop heeds. */
  predicate Wakes(cfg: Config, w: World, step: Step, k: nat) {
    match step
    case Switched(id, _, on) => on && First(w.rules, id) == Some(k)
    case Minted(subject, trigger, place, act, _) => MintWakes(w.rules, subject, trigger, place, act, k)
    case Assented(p, _) => PolicyWakes(w.rules, p, k)
    case Heed(_, _, _, _, _) =>
      var m := MoveOf(cfg, w, step);
      m.Some? && m.value.1.assent.Some? && PolicyWakes(w.rules, m.value.1.assent.value.proposal, k)
    case _ => false
  }

  ghost predicate NeverWoken(cfg: Config, w: World, steps: seq<Step>, k: nat) {
    forall i | 0 <= i < |steps| :: !Wakes(cfg, Run(cfg, w, steps[..i]), steps[i], k)
  }

  lemma MoveAndRules(cfg: Config, w: World, step: Step)
    requires MoveOf(cfg, w, step).Some?
    ensures var m := MoveOf(cfg, w, step).value.1;
      && (m.assent.Some? ==> step.Heed? && m.reverted.None?)
      && (m.verdict.Some? && m.verdict.value.Undone? ==>
            m.reverted == match m.verdict.value.act.pursuit case Rule(id) => Some(id) case Thread(_) => None)
      && (m.verdict.Some? && m.verdict.value.Opened? && m.verdict.value.act.pursuit.Rule? ==>
            exists k :: 0 <= k < |w.rules| && w.rules[k].enabled && w.rules[k].id == m.verdict.value.act.pursuit.rule)
      && (m.reverted.Some? ==> m.verdict.Some? && m.verdict.value.Undone?)
  {
    hide BucketOf, Reacted, SaidNo;
  }

  /** A step that undoes an act of rule `id` takes down exactly the row of that id (the first,
      should two share it) and the rest of its policy. */
  lemma {:induction false} ReversalDisables(cfg: Config, w: World, step: Step, id: nat, k: nat)
    requires k < |w.rules| && exists e | e in Since(w, Next(cfg, w, step)) :: Reverses(e, id)
    ensures Next(cfg, w, step).rules == DisableReverted(w.rules, id)
    ensures Down(Next(cfg, w, step).rules, k) <==> Down(w.rules, k) || TakenDown(w.rules, id, k)
  {
    hide MoveOf, First;
    assert MoveOf(cfg, w, step).Some?;
    MoveAndRules(cfg, w, step);
    var (s, m) := MoveOf(cfg, w, step).value;
    assert Since(w, Next(cfg, w, step)) == Told(s, m);
  }

  lemma RulesGrow(cfg: Config, w: World, step: Step)
    ensures Ids(w.rules) <= Ids(Next(cfg, w, step).rules)
    ensures w.history <= Next(cfg, w, step).history
  {
    assert step.Minted? || step.Assented? || step.Switched? ==> MoveOf(cfg, w, step).None?;
    hide MoveOf, MintPolicy, SetEnabled, DisableReverted, Mint;
    if MoveOf(cfg, w, step).Some? {
      var m := MoveOf(cfg, w, step).value.1;
      if m.reverted.Some? { OperationsKeepIds(w.rules, Proposal("", "", "", ""), 0, m.reverted.value, true); }
      if m.assent.Some? { OperationsKeepIds(w.rules, m.assent.value.proposal, m.assent.value.now, 0, true); }
    } else if step.Switched? {
      OperationsKeepIds(w.rules, Proposal("", "", "", ""), 0, step.rule, step.on);
    } else if step.Minted? {
      MintGrows(w.rules, step.subject, step.trigger, step.place, step.act, step.now);
    } else if step.Assented? {
      OperationsKeepIds(w.rules, step.proposal, step.now, 0, true);
    }
  }

  /** A disabled row stays down in a step if and only if nothing in that step wakes it. */
  lemma DownIff(cfg: Config, w: World, step: Step, k: nat)
    requires Down(w.rules, k)
    ensures Down(Next(cfg, w, step).rules, k) <==> !Wakes(cfg, w, step, k)
  {
    assert step.Minted? || step.Assented? || step.Switched? ==> MoveOf(cfg, w, step).None?;
    hide MoveOf, MintPolicy, Mint, First, PolicyWakes, MintWakes;
    if MoveOf(cfg, w, step).Some? {
      MoveAndRules(cfg, w, step);
      var m := MoveOf(cfg, w, step).value.1;
      if m.assent.Some? { PolicyWakesIff(w.rules, m.assent.value.proposal, m.assent.value.now, k); }
    } else if step.Minted? {
      MintWakesIff(w.rules, step.subject, step.trigger, step.place, step.act, step.now, k);
    } else if step.Assented? {
      PolicyWakesIff(w.rules, step.proposal, step.now, k);
    }
  }

  lemma DownDoesNotAct(cfg: Config, w: World, step: Step, k: nat)
    requires Down(w.rules, k) && UniqueIds(w.rules)
    ensures forall e | e in Since(w, Next(cfg, w, step)) :: !ActsFor(e, w.rules[k].id)
  {
    hide MoveOf, RulesAfter;
    if MoveOf(cfg, w, step).Some? {
      MoveAndRules(cfg, w, step);
      var (s, m) := MoveOf(cfg, w, step).value;
      assert Since(w, Next(cfg, w, step)) == Told(s, m);
    }
  }

  lemma UniqueBefore(a: seq<ReactionRule>, b: seq<ReactionRule>)
    requires Ids(a) <= Ids(b) && UniqueIds(b)
    ensures UniqueIds(a) && forall k | 0 <= k < |a| :: a[k].id == b[k].id
  {
    forall i | 0 <= i < |a| ensures a[i].id == b[i].id {
      assert Ids(a)[i] == Ids(b)[i];
    }
  }

  /** A disabled rule opens no act in any run that does not wake it. */
  lemma {:induction false} DownNeverActs(cfg: Config, w: World, steps: seq<Step>, k: nat)
    requires Down(w.rules, k) && NeverWoken(cfg, w, steps, k) && UniqueIds(Run(cfg, w, steps).rules)
    ensures Down(Run(cfg, w, steps).rules, k) && w.history <= Run(cfg, w, steps).history
    ensures Run(cfg, w, steps).rules[k].id == w.rules[k].id
    ensures forall e | e in Since(w, Run(cfg, w, steps)) :: !ActsFor(e, w.rules[k].id)
    decreases |steps|
  {
    if steps != [] {
      var before, step := steps[..|steps| - 1], steps[|steps| - 1];
      NeverWokenBefore(cfg, w, steps, k);
      var v, x := Run(cfg, w, before), Run(cfg, w, steps);
      assert x == Next(cfg, v, step);
      hide Run, Next, Wakes, NeverWoken;
      RulesGrow(cfg, v, step);
      UniqueBefore(v.rules, x.rules);
      DownNeverActs(cfg, w, before, k);
      DownIff(cfg, v, step, k);
      DownDoesNotAct(cfg, v, step, k);
      assert Since(w, x) == Since(w, v) + Since(v, x);
    }
  }

  lemma {:induction false} NeverWokenBefore(cfg: Config, w: World, steps: seq<Step>, k: nat)
    requires NeverWoken(cfg, w, steps, k) && steps != []
    ensures var n := |steps| - 1; NeverWoken(cfg, w, steps[..n], k) && !Wakes(cfg, Run(cfg, w, steps[..n]), steps[n], k)
  {
    hide Run, Wakes;
    var before := steps[..|steps| - 1];
    assert forall i | 0 <= i < |before| :: before[..i] == steps[..i] && before[i] == steps[i];
  }

  /** MAIN. A rule whose act was reverted, and the rest of its policy, go down in that step and
      never act again in any run that does not wake them: by the switch, or by minting them
      anew, which the loop itself does on an explicit yes. */
  lemma {:induction false} ReversalSticks(cfg: Config, w: World, step: Step, steps: seq<Step>, id: nat, k: nat)
    requires k < |w.rules| && TakenDown(w.rules, id, k)
    requires exists e | e in Since(w, Next(cfg, w, step)) :: Reverses(e, id)
    requires var x := Next(cfg, w, step); NeverWoken(cfg, x, steps, k) && UniqueIds(Run(cfg, x, steps).rules)
    ensures var x := Next(cfg, w, step);
      Down(x.rules, k) && forall e | e in Since(x, Run(cfg, x, steps)) :: !ActsFor(e, w.rules[k].id)
  {
    hide Next, Run, TakenDown;
    var x := Next(cfg, w, step);
    ReversalDisables(cfg, w, step, id, k);
    RulesGrow(cfg, w, step);
    assert Ids(w.rules)[k] == Ids(x.rules)[k];
    DownNeverActs(cfg, x, steps, k);
  }

  /** And waking is enough: in any world, a disabled rule that is minted again acts at
      its next firing, as soon as its surface has rested and has no act open. */
  lemma RemintedRuleActs(cfg: Config, w: World, k: nat, act: string, minted: int, now: int)
    requires Down(w.rules, k)
    requires var r := w.rules[k];
      && r.subject != "" && r.surface != "" && act != "" && Slot(w.rules, r.subject, r.trigger, r.surface) == Some(k)
      && r.surface in cfg.acts && act in cfg.acts[r.surface].actions && act != Truth(cfg, w, r.surface)
      && Mem(w, r.surface).act.None? && Mem(w, r.surface).restUntil <= now
    ensures var r := w.rules[k];
      var x := Next(cfg, w, Minted(r.subject, r.trigger, r.surface, act, minted));
      var y := Next(cfg, x, TendRule(k, now, true, true, true));
      exists e | e in Since(x, y) :: ActsFor(e, r.id) && e.surface == r.surface && e.act.target == act
  {
    var r := w.rules[k];
    var mint := Minted(r.subject, r.trigger, r.surface, act, minted);
    var x := Next(cfg, w, mint);
    assert MoveOf(cfg, w, mint).None?;
    assert x.rules[k] == r.(act := act, enabled := true) && x.mem == w.mem && x.device == w.device;
    hide Next, Slot, Mint;
    FiringActs(cfg, x, k, now);
  }

  lemma FiringActs(cfg: Config, x: World, k: nat, now: int)
    requires k < |x.rules| && x.rules[k].enabled
    requires var r := x.rules[k];
      && r.surface in cfg.acts && r.act in cfg.acts[r.surface].actions && r.act != Truth(cfg, x, r.surface)
      && Mem(x, r.surface).act.None? && Mem(x, r.surface).restUntil <= now
    ensures var r := x.rules[k];
      exists e | e in Since(x, Next(cfg, x, TendRule(k, now, true, true, true))) ::
        ActsFor(e, r.id) && e.surface == r.surface && e.act.target == r.act
  {
    hide BucketOf, RulesAfter, Effects, TakenDown, First, Slot;
    var r := x.rules[k];
    var fired := PendingAct(Rule(r.id), "", r.act, Truth(cfg, x, r.surface), now, 0);
    var (s, m) := MoveOf(cfg, x, TendRule(k, now, true, true, true)).value;
    assert s == r.surface && m.verdict == Some(Opened(r.surface, fired)) && m.adjusted.None?;
    hide MoveOf, TendMove, Truth;
    assert Since(x, Next(cfg, x, TendRule(k, now, true, true, true))) == [Opened(r.surface, fired)];
    assert [Opened(r.surface, fired)][0] == Opened(r.surface, fired);
  }

  // ------------------------------------------------------------------- what a rule may act on

  predicate Declared(cfg: Config, r: ReactionRule) { r.surface in cfg.acts && r.act in cfg.acts[r.surface].actions }

  /** When a firing acts: exactly when the rule is on, its surface and act are declared, the
      surface has rested with no act open, the guard permits, the read and the act work, and
      the world does not already agree. */
  lemma FiresIff(cfg: Config, w: World, k: nat, now: int, permitted: bool, healthy: bool, runs: bool)
    requires k < |w.rules|
    ensures var r := w.rules[k];
      (exists e | e in Since(w, Next(cfg, w, TendRule(k, now, permitted, healthy, runs))) :: ActsFor(e, r.id))
      <==> r.enabled && Declared(cfg, r) && Mem(w, r.surface).act.None? && Mem(w, r.surface).restUntil <= now
           && permitted && healthy && runs && Truth(cfg, w, r.surface) != r.act
  {
    FiringMove(cfg, w, k, now, permitted, healthy, runs);
    hide MoveOf, Truth, RulesAfter, Effects, ActsFor;
    var step := TendRule(k, now, permitted, healthy, runs);
    if MoveOf(cfg, w, step).Some? {
      var (s, m) := MoveOf(cfg, w, step).value;
      assert Since(w, Next(cfg, w, step)) == Told(s, m);
      if m.verdict.Some? { assert m.verdict.value in [m.verdict.value]; }
    }
  }

  lemma FiringMove(cfg: Config, w: World, k: nat, now: int, permitted: bool, healthy: bool, runs: bool)
    requires k < |w.rules|
    ensures var r, move := w.rules[k], MoveOf(cfg, w, TendRule(k, now, permitted, healthy, runs));
      && (move.Some? && move.value.1.verdict.Some? <==>
            r.enabled && Declared(cfg, r) && Mem(w, r.surface).act.None? && Mem(w, r.surface).restUntil <= now
            && permitted && healthy && runs && Truth(cfg, w, r.surface) != r.act)
      && (move.Some? ==> move.value.1.adjusted.None?
                         && (move.value.1.verdict.Some? ==> ActsFor(move.value.1.verdict.value, r.id)))
  {
    hide BucketOf;
  }

  /** A policy is minted whether or not its surface and acts are declared: only its firings
      ask, and an undeclared edge never acts. */
  lemma UndeclaredIsMinted(cfg: Config, w: World, p: Proposal, now: int, k: nat, later: int)
    requires w.rules == [] && p.subject != "" && p.surface != "" && p.onAway != "" && p.onBack != ""
    requires p.surface !in cfg.acts && k < 2
    ensures var x := Next(cfg, w, Assented(p, now));
      && |x.rules| == 2 && x.rules[k].enabled && x.rules[k].surface == p.surface
      && forall e | e in Since(x, Next(cfg, x, TendRule(k, later, true, true, true))) :: !ActsFor(e, x.rules[k].id)
  {
    FirstPolicy(p, now);
    var x := Next(cfg, w, Assented(p, now));
    assert x.rules == MintPolicy([], p, now);
    hide Next, MintPolicy;
    FiresIff(cfg, x, k, later, true, true, true);
  }

  // ------------------------------------------------------------------ one policy, one object

  /** What leaves one half of a policy on and the other off: the switch, or a single mint, on
      one half while another is in the opposite state; or a new policy that gets the number of
      an old one whose rows are off (minted at the same moment, to 32 bits). */
  predicate Splits(cfg: Config, w: World, step: Step) {
    match step
    case Switched(id, _, on) => First(w.rules, id).Some? && PeerDiffers(w.rules, First(w.rules, id).value, on)
    case Minted(subject, trigger, place, act, _) =>
      exists k :: 0 <= k < |w.rules| && MintWakes(w.rules, subject, trigger, place, act, k) && PeerDiffers(w.rules, k, true)
    case Assented(p, now) => Mintable(w.rules, p) && NumberTaken(w.rules, p, now)
    case Heed(_, _, _, _, _) =>
      var m := MoveOf(cfg, w, step);
      m.Some? && m.value.1.assent.Some? && var a := m.value.1.assent.value;
      Mintable(w.rules, a.proposal) && NumberTaken(w.rules, a.proposal, a.now)
    case _ => false
  }

  lemma {:induction false} SplitIff(cfg: Config, w: World, step: Step)
    requires Whole(w.rules) && OneEach(w.rules) && UniqueIds(Next(cfg, w, step).rules)
    ensures Whole(Next(cfg, w, step).rules) <==> !Splits(cfg, w, step)
    ensures OneEach(Next(cfg, w, step).rules)
  {
    assert step.Minted? || step.Assented? || step.Switched? ==> MoveOf(cfg, w, step).None?;
    hide MoveOf, Mint, MintPolicy, SetEnabled, DisableReverted, First, Mintable, Whole, OneEach, UniqueIds, PeerDiffers, NumberTaken;
    var none := Proposal("", "", "", "");
    if MoveOf(cfg, w, step).Some? {
      MoveAndRules(cfg, w, step);
      var m := MoveOf(cfg, w, step).value.1;
      if m.reverted.Some? {
        RevertKeepsWhole(w.rules, m.reverted.value);
        OperationsKeepOneEach(w.rules, none, 0, m.reverted.value, true);
      }
      if m.assent.Some? {
        PolicyIsWhole(w.rules, m.assent.value.proposal, m.assent.value.now);
        OperationsKeepOneEach(w.rules, m.assent.value.proposal, m.assent.value.now, 0, true);
      }
    } else if step.Switched? {
      SwitchIsWhole(w.rules, step.rule, step.on);
      OperationsKeepOneEach(w.rules, none, 0, step.rule, step.on);
    } else if step.Minted? {
      MintIsWhole(w.rules, step.subject, step.trigger, step.place, step.act, step.now);
      MintGrows(w.rules, step.subject, step.trigger, step.place, step.act, step.now);
    } else if step.Assented? {
      PolicyIsWhole(w.rules, step.proposal, step.now);
      OperationsKeepOneEach(w.rules, step.proposal, step.now, 0, true);
    }
  }

  predicate WholeAt(cfg: Config, w: World, steps: seq<Step>, i: int)
    requires 0 <= i <= |steps|
  {
    Whole(Run(cfg, w, steps[..i]).rules)
  }

  predicate SplitAt(cfg: Config, w: World, steps: seq<Step>, i: int)
    requires 0 <= i < |steps|
  {
    Splits(cfg, Run(cfg, w, steps[..i]), steps[i])
  }

  lemma {:induction false} IdsBefore(cfg: Config, w: World, steps: seq<Step>, i: nat)
    requires i <= |steps|
    ensures Ids(Run(cfg, w, steps[..i]).rules) <= Ids(Run(cfg, w, steps).rules)
    decreases |steps|
  {
    if i == |steps| {
      assert steps[..i] == steps;
    } else {
      var before := steps[..|steps| - 1];
      IdsBefore(cfg, w, before, i);
      assert before[..i] == steps[..i];
      RulesGrow(cfg, Run(cfg, w, before), steps[|steps| - 1]);
    }
  }

  /** MAIN. A policy is one object exactly so far: over any run, from rules whose halves agree,
      they agree after every step if and only if no step splits them. The reversal by hand
      never does; the switch, a single mint and a number used twice can. */
  lemma {:induction false} HalvesAgree(cfg: Config, w: World, steps: seq<Step>)
    requires Whole(w.rules) && OneEach(w.rules) && UniqueIds(Run(cfg, w, steps).rules)
    ensures (forall i | 0 <= i <= |steps| :: WholeAt(cfg, w, steps, i))
            <==> forall i | 0 <= i < |steps| :: !SplitAt(cfg, w, steps, i)
  {
    if forall i | 0 <= i < |steps| :: !SplitAt(cfg, w, steps, i) {
      forall i | 0 <= i <= |steps| ensures WholeAt(cfg, w, steps, i) { AgreeUpTo(cfg, w, steps, i); }
    } else {
      var i := FirstSplit(cfg, w, steps);
      AgreeUpTo(cfg, w, steps, i);
      SplitMatters(cfg, w, steps, i);
    }
  }

  lemma FirstSplit(cfg: Config, w: World, steps: seq<Step>) returns (i: nat)
    requires exists j :: 0 <= j < |steps| && SplitAt(cfg, w, steps, j)
    ensures i < |steps| && SplitAt(cfg, w, steps, i) && forall j | 0 <= j < i :: !SplitAt(cfg, w, steps, j)
  {
    hide SplitAt;
    var last :| 0 <= last < |steps| && SplitAt(cfg, w, steps, last);
    i := 0;
    while !SplitAt(cfg, w, steps, i)
      invariant i <= last && forall j | 0 <= j < i :: !SplitAt(cfg, w, steps, j)
      decreases last - i
    {
      i := i + 1;
    }
  }

  /** A step from rules whose halves agree. */
  lemma {:induction false} SplitMatters(cfg: Config, w: World, steps: seq<Step>, i: nat)
    requires i < |steps| && UniqueIds(Run(cfg, w, steps).rules) && WholeAt(cfg, w, steps, i)
    requires OneEach(Run(cfg, w, steps[..i]).rules)
    ensures WholeAt(cfg, w, steps, i + 1) <==> !SplitAt(cfg, w, steps, i)
    ensures OneEach(Run(cfg, w, steps[..i + 1]).rules)
  {
    IdsBefore(cfg, w, steps, i + 1);
    UniqueBefore(Run(cfg, w, steps[..i + 1]).rules, Run(cfg, w, steps).rules);
    assert steps[..i + 1] == steps[..i] + [steps[i]];
    RunAppend(cfg, w, steps[..i], steps[i]);
    hide Next, Run, Splits;
    SplitIff(cfg, Run(cfg, w, steps[..i]), steps[i]);
  }

  lemma {:induction false} AgreeUpTo(cfg: Config, w: World, steps: seq<Step>, i: nat)
    requires Whole(w.rules) && OneEach(w.rules) && UniqueIds(Run(cfg, w, steps).rules)
    requires i <= |steps| && forall j | 0 <= j < i :: !SplitAt(cfg, w, steps, j)
    ensures WholeAt(cfg, w, steps, i) && OneEach(Run(cfg, w, steps[..i]).rules)
  {
    if i == 0 {
      assert steps[..0] == [];
    } else {
      AgreeUpTo(cfg, w, steps, i - 1);
      SplitMatters(cfg, w, steps, i - 1);
    }
  }

  /** Such a step: one edge of a policy just minted is switched off, and the other stays on. */
  lemma OneEdgeOff(cfg: Config, w: World, p: Proposal, now: int)
    requires w.rules == [] && p.subject != "" && p.surface != "" && p.onAway != "" && p.onBack != ""
    ensures var x := Next(cfg, w, Assented(p, now));
      |x.rules| == 2 && x.rules[0].enabled && x.rules[1].enabled && x.rules[0].policy == x.rules[1].policy == Some(PolicyId(now))
    ensures var x := Next(cfg, w, Assented(p, now)); Splits(cfg, x, Switched(x.rules[0].id, now, false))
  {
    FirstPolicy(p, now);
    var x := Next(cfg, w, Assented(p, now));
    assert x.rules == MintPolicy([], p, now);
    hide MintPolicy, Next;
    assert x.rules[1].enabled && x.rules[1].policy == x.rules[0].policy;
    assert First(x.rules, x.rules[0].id) == Some(0);
  }
}
