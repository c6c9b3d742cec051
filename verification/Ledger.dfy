/** The factory's append-only ledger: an order's state is what replaying its events proves,
    and an event that could not legally follow is refused at the door.

    An event's sequence number is its position here, and every event is for the order that
    opened the ledger. Digests are plain strings. */
module Ledger {
  import opened Wrappers

  /** The oracle rungs in factory order. */
  datatype Rung = Bench | Read | Act | Witness

  function Rank(r: Rung): nat { match r case Bench => 0 case Read => 1 case Act => 2 case Witness => 3 }

  datatype Order = Order(id: string, surface: set<string>, lock: string, plan: seq<Rung>)

  predicate ValidOrder(o: Order) {
    o.id != "" && o.surface != {} && o.plan != [] && forall i | 0 < i < |o.plan| :: Rank(o.plan[i - 1]) < Rank(o.plan[i])
  }

  datatype Answer = Yes | No | Unclear

  datatype Event =
    | Opened(order: Order)
    | GenerationReturned(iteration: nat, digest: string, refused: bool, surface: seq<string>, lock: string)
    | RungVerdict(iteration: nat, rung: Rung, pass: bool)
    | WitnessRequested(iteration: nat, request: string)
    | WitnessAnswered(iteration: nat, request: string, answer: Answer)
    | Parked(reason: string)
    | DeclarationProposed(digest: string, reduced: bool)
    | DeclarationObserved(digest: string)
    | Commissioned(evidence: string)
    | Closed(reason: string)

  datatype OrderState = OrderState(
    order: Order, iteration: nat, refused: bool, rungsPassed: seq<Rung>, iterationBroken: bool,
    witnessOutstanding: Option<string>, witnessPassed: bool, parked: Option<string>,
    proposed: Option<string>, declared: bool, commissioned: bool, closed: Option<string>)
  {
    predicate Terminal() { commissioned || closed.Some? }
  }

  function Open(order: Order): OrderState {
    OrderState(order, 0, false, [], false, None, false, None, None, false, false, None)
  }

  /** The rung just before `r` in the plan, if `r` is planned at all. */
  function Position(plan: seq<Rung>, r: Rung): Option<nat> {
    if plan == [] then None
    else if plan[0] == r then Some(0)
    else match Position(plan[1..], r) case Some(i) => Some(i + 1) case None => None
  }

  predicate ProvenFor(st: OrderState, reduced: bool) {
    && (forall r | r in {Bench, Read, Act} && r in st.order.plan :: r in st.rungsPassed)
    && (!reduced && Witness in st.order.plan ==> Witness in st.rungsPassed)
  }

  /** `apply`: one event after the opening, fail closed. */
  function Apply(st: OrderState, ev: Event): Result<OrderState> {
    if st.Terminal() then Err
    else match ev
      case Opened(_) => Err
      case GenerationReturned(iteration, _, refused, surface, lock) =>
        if iteration != st.iteration + 1 then Err
        else if !refused && ((exists s :: s in surface && s !in st.order.surface) || lock != st.order.lock) then Err
        else Ok(st.(iteration := iteration, refused := refused, rungsPassed := [], iterationBroken := false,
                    witnessOutstanding := None, witnessPassed := false, parked := None,
                    proposed := None, declared := false))
      case RungVerdict(iteration, rung, pass) =>
        if st.iteration == 0 || iteration != st.iteration || st.refused || st.iterationBroken then Err
        else
          var pos := Position(st.order.plan, rung);
          if pos.None? || rung in st.rungsPassed then Err
          else if 0 < pos.value < |st.order.plan| && st.order.plan[pos.value - 1] !in st.rungsPassed then Err
          else if !pass then Ok(st.(iterationBroken := true))
          else if rung == Witness && !st.witnessPassed then Err
          else Ok(st.(rungsPassed := st.rungsPassed + [rung]))
      case WitnessRequested(iteration, request) =>
        if st.iteration == 0 || iteration != st.iteration || st.iterationBroken || st.witnessOutstanding.Some? then Err
        else Ok(st.(witnessOutstanding := Some(request)))
      case WitnessAnswered(iteration, request, answer) =>
        if iteration != st.iteration || st.witnessOutstanding != Some(request) then Err
        else
          var heard := st.(witnessOutstanding := None);
          (match answer
           case Yes => Ok(heard.(witnessPassed := true))
           case No => Ok(heard.(iterationBroken := true))
           case Unclear => Ok(heard))
      case Parked(reason) => Ok(st.(parked := Some(reason)))
      case DeclarationProposed(digest, reduced) =>
        if !ProvenFor(st, reduced) then Err else Ok(st.(proposed := Some(digest), parked := None))
      case DeclarationObserved(digest) =>
        if st.proposed.None? then Err else Ok(st.(declared := st.proposed == Some(digest)))
      case Commissioned(_) => if !st.declared then Err else Ok(st.(commissioned := true))
      case Closed(reason) => Ok(st.(closed := Some(reason)))
  }

  /** `replay`, as a fold. */
  function Replay(events: seq<Event>): Result<OrderState> {
    if events == [] then Err
    else if |events| == 1 then
      (if events[0].Opened? && ValidOrder(events[0].order) then Ok(Open(events[0].order)) else Err)
    else
      var before := Replay(events[..|events| - 1]);
      if before.Err? then Err else Apply(before.value, events[|events| - 1])
  }

  predicate Legal(events: seq<Event>) { Replay(events).Ok? }

  // --------------------------------------------------------------- what a ledger proves

  /** Generations so far. */
  function Count(events: seq<Event>): nat {
    if events == [] then 0
    else Count(events[..|events| - 1]) + if events[|events| - 1].GenerationReturned? then 1 else 0
  }

  /** The events since the last generation, which is what the current candidate has done. */
  function Since(events: seq<Event>): seq<Event> {
    if events == [] || events[|events| - 1].GenerationReturned? then []
    else Since(events[..|events| - 1]) + [events[|events| - 1]]
  }

  ghost predicate PassIn(seg: seq<Event>, r: Rung) {
    exists i :: 0 <= i < |seg| && seg[i].RungVerdict? && seg[i].rung == r && seg[i].pass
  }

  /** A request and a yes to that very request. */
  ghost predicate YesIn(seg: seq<Event>) {
    exists i, j :: 0 <= i < j < |seg| && seg[i].WitnessRequested? && seg[j].WitnessAnswered?
                   && seg[j].request == seg[i].request && seg[j].answer == Yes
  }

  ghost predicate FailureIn(seg: seq<Event>) {
    exists i :: 0 <= i < |seg| && ((seg[i].RungVerdict? && !seg[i].pass) || (seg[i].WitnessAnswered? && seg[i].answer == No))
  }

  /** A proposal of `digest` at `p`, made after this candidate itself passed what the plan
      asks: bench, read and act always, the witness unless the proposal is reduced. */
  ghost predicate ProvedProposal(seg: seq<Event>, plan: seq<Rung>, digest: string, p: nat) {
    && p < |seg| && seg[p].DeclarationProposed? && seg[p].digest == digest
    && (forall r | r in {Bench, Read, Act} && r in plan :: PassIn(seg[..p], r))
    && (!seg[p].reduced && Witness in plan ==> PassIn(seg[..p], Witness) && YesIn(seg[..p]))
  }

  /** A declaration observed at `o` with the digest that was then proposed. */
  ghost predicate ProvedDeclaration(seg: seq<Event>, plan: seq<Rung>, o: nat) {
    o < |seg| && seg[o].DeclarationObserved? && exists p :: ProvedProposal(seg[..o], plan, seg[o].digest, p)
  }

  /** What the replayed state means, in terms of the events of the current candidate. */
  ghost predicate Means(st: OrderState, seg: seq<Event>) {
    && (forall r | r in st.rungsPassed :: PassIn(seg, r))
    && (st.iterationBroken <==> FailureIn(seg))
    && (st.witnessOutstanding.Some? ==> exists i :: 0 <= i < |seg| && seg[i].WitnessRequested? && seg[i].request == st.witnessOutstanding.value)
    && (st.witnessPassed ==> YesIn(seg))
    && (Witness in st.rungsPassed ==> YesIn(seg))
    && (st.proposed.Some? ==> exists p :: ProvedProposal(seg, st.order.plan, st.proposed.value, p))
    && (st.declared || st.commissioned ==> exists o :: ProvedDeclaration(seg, st.order.plan, o))
    && (st.rungsPassed != [] ==> st.iteration > 0 && !st.refused)
  }

  lemma PassGrows(a: seq<Event>, b: seq<Event>, r: Rung)
    requires PassIn(a, r)
    ensures PassIn(a + b, r)
  {
    var i :| 0 <= i < |a| && a[i].RungVerdict? && a[i].rung == r && a[i].pass;
    assert (a + b)[i] == a[i];
  }

  lemma YesGrows(a: seq<Event>, b: seq<Event>)
    requires YesIn(a)
    ensures YesIn(a + b)
  {
    var i, j :| 0 <= i < j < |a| && a[i].WitnessRequested? && a[j].WitnessAnswered? && a[j].request == a[i].request && a[j].answer == Yes;
    assert (a + b)[i] == a[i] && (a + b)[j] == a[j];
  }

  lemma ProposalGrows(a: seq<Event>, b: seq<Event>, plan: seq<Rung>, digest: string, p: nat)
    requires ProvedProposal(a, plan, digest, p)
    ensures ProvedProposal(a + b, plan, digest, p)
  {
    assert (a + b)[p] == a[p] && (a + b)[..p] == a[..p];
  }

  lemma DeclarationGrows(a: seq<Event>, b: seq<Event>, plan: seq<Rung>, o: nat)
    requires ProvedDeclaration(a, plan, o)
    ensures ProvedDeclaration(a + b, plan, o)
  {
    assert (a + b)[o] == a[o] && (a + b)[..o] == a[..o];
  }

  lemma FailureAt(seg: seq<Event>, ev: Event)
    ensures FailureIn(seg + [ev]) <==> FailureIn(seg) || (ev.RungVerdict? && !ev.pass) || (ev.WitnessAnswered? && ev.answer == No)
  {
    var next := seg + [ev];
    if FailureIn(seg) {
      var i :| 0 <= i < |seg| && ((seg[i].RungVerdict? && !seg[i].pass) || (seg[i].WitnessAnswered? && seg[i].answer == No));
      assert next[i] == seg[i];
    }
    assert next[|seg|] == ev;
  }

  lemma ProposalsGrow(st: OrderState, seg: seq<Event>, ev: Event)
    requires Means(st, seg)
    ensures st.proposed.Some? ==> exists p :: ProvedProposal(seg + [ev], st.order.plan, st.proposed.value, p)
    ensures st.declared || st.commissioned ==> exists o :: ProvedDeclaration(seg + [ev], st.order.plan, o)
  {
    if st.proposed.Some? {
      var p :| ProvedProposal(seg, st.order.plan, st.proposed.value, p);
      ProposalGrows(seg, [ev], st.order.plan, st.proposed.value, p);
    }
    if st.declared || st.commissioned {
      var o :| ProvedDeclaration(seg, st.order.plan, o);
      DeclarationGrows(seg, [ev], st.order.plan, o);
    }
  }

  lemma ProofsGrow(st: OrderState, seg: seq<Event>, ev: Event)
    requires Means(st, seg)
    ensures forall r | r in st.rungsPassed :: PassIn(seg + [ev], r)
    ensures YesIn(seg) ==> YesIn(seg + [ev])
    ensures st.witnessOutstanding.Some? ==> exists i :: 0 <= i < |seg + [ev]| && (seg + [ev])[i].WitnessRequested? && (seg + [ev])[i].request == st.witnessOutstanding.value
  {
    forall r | r in st.rungsPassed ensures PassIn(seg + [ev], r) { PassGrows(seg, [ev], r); }
    if YesIn(seg) { YesGrows(seg, [ev]); }
    if st.witnessOutstanding.Some? {
      var i :| 0 <= i < |seg| && seg[i].WitnessRequested? && seg[i].request == st.witnessOutstanding.value;
      assert (seg + [ev])[i] == seg[i];
    }
  }

  lemma VerdictKeepsMeaning(st: OrderState, seg: seq<Event>, ev: Event)
    requires Means(st, seg) && Apply(st, ev).Ok? && ev.RungVerdict?
    ensures Means(Apply(st, ev).value, seg + [ev])
  {
    var next := seg + [ev];
    FailureAt(seg, ev);
    ProofsGrow(st, seg, ev);
    ProposalsGrow(st, seg, ev);
    assert next[|seg|] == ev;
    if ev.pass { assert PassIn(next, ev.rung); }
  }

  lemma WitnessKeepsMeaning(st: OrderState, seg: seq<Event>, ev: Event)
    requires Means(st, seg) && Apply(st, ev).Ok? && (ev.WitnessRequested? || ev.WitnessAnswered?)
    ensures Means(Apply(st, ev).value, seg + [ev])
  {
    var next := seg + [ev];
    FailureAt(seg, ev);
    ProofsGrow(st, seg, ev);
    ProposalsGrow(st, seg, ev);
    assert next[|seg|] == ev;
    if ev.WitnessAnswered? && ev.answer == Yes {
      var i :| 0 <= i < |seg| && seg[i].WitnessRequested? && seg[i].request == ev.request;
      assert next[i] == seg[i];
      assert YesIn(next);
    }
  }

  lemma DeclarationKeepsMeaning(st: OrderState, seg: seq<Event>, ev: Event)
    requires Means(st, seg) && Apply(st, ev).Ok? && (ev.DeclarationProposed? || ev.DeclarationObserved?)
    ensures Means(Apply(st, ev).value, seg + [ev])
  {
    var next := seg + [ev];
    FailureAt(seg, ev);
    ProofsGrow(st, seg, ev);
    ProposalsGrow(st, seg, ev);
    assert next[|seg|] == ev && next[..|seg|] == seg;
    if ev.DeclarationProposed? {
      assert ProvedProposal(next, st.order.plan, ev.digest, |seg|);
    } else if st.proposed == Some(ev.digest) {
      assert ProvedDeclaration(next, st.order.plan, |seg|);
    }
  }

  lemma ApplyKeepsMeaning(st: OrderState, seg: seq<Event>, ev: Event)
    requires Means(st, seg) && Apply(st, ev).Ok?
    ensures Means(Apply(st, ev).value, if ev.GenerationReturned? then [] else seg + [ev])
  {
    if ev.RungVerdict? {
      VerdictKeepsMeaning(st, seg, ev);
    } else if ev.WitnessRequested? || ev.WitnessAnswered? {
      WitnessKeepsMeaning(st, seg, ev);
    } else if ev.DeclarationProposed? || ev.DeclarationObserved? {
      DeclarationKeepsMeaning(st, seg, ev);
    } else if !ev.GenerationReturned? {
      FailureAt(seg, ev);
      ProofsGrow(st, seg, ev);
      ProposalsGrow(st, seg, ev);
    }
  }

  lemma ApplyCounts(st: OrderState, ev: Event)
    requires Apply(st, ev).Ok?
    ensures Apply(st, ev).value.order == st.order
    ensures Apply(st, ev).value.iteration == st.iteration + if ev.GenerationReturned? then 1 else 0
  {}

  lemma {:induction false} ReplayCounts(events: seq<Event>)
    requires Legal(events)
    ensures Replay(events).value.iteration == Count(events)
    ensures ValidOrder(Replay(events).value.order) && events[0] == Opened(Replay(events).value.order)
  {
    var n := |events| - 1;
    if n == 0 {
      assert Count(events[..0]) == 0;
    } else {
      ReplayCounts(events[..n]);
      ApplyCounts(Replay(events[..n]).value, events[n]);
    }
  }

  lemma {:induction false} ReplayMeans(events: seq<Event>)
    requires Legal(events)
    ensures Means(Replay(events).value, Since(events))
  {
    var n := |events| - 1;
    if n > 0 {
      ReplayMeans(events[..n]);
      ApplyKeepsMeaning(Replay(events[..n]).value, Since(events[..n]), events[n]);
    } else {
      assert Since(events[..0]) == [] && Since(events) == [events[0]];
    }
  }

  lemma {:induction false} PrefixLegal(events: seq<Event>, n: nat)
    requires Legal(events) && 0 < n <= |events|
    ensures Legal(events[..n])
  {
    if n == |events| {
      assert events[..n] == events;
    } else {
      PrefixLegal(events[..|events| - 1], n);
      assert events[..|events| - 1][..n] == events[..n];
    }
  }

  // -------------------------------------------------------------------------- theorems

  /** MAIN. In every replayable ledger the generations are numbered 1, 2, ... with no gap or
      repeat, and every verdict is for the generation just before it. */
  lemma Numbering(events: seq<Event>, i: nat)
    requires Legal(events) && i < |events|
    ensures events[i].GenerationReturned? ==> events[i].iteration == Count(events[..i]) + 1
    ensures events[i].RungVerdict? ==> events[i].iteration == Count(events[..i]) > 0
  {
    PrefixLegal(events, i + 1);
    var upTo := events[..i + 1];
    assert upTo[..i] == events[..i] && upTo[i] == events[i];
    if i > 0 { ReplayCounts(events[..i]); }
  }

  /** After a failed rung, or a witness's no, no rung is judged and no witness asked until the
      next generation. (What is still allowed: `BrokenMayBeCommissioned`.) */
  lemma FailureNeedsNewGeneration(events: seq<Event>, i: nat)
    requires Legal(events) && 0 < i < |events| && FailureIn(Since(events[..i]))
    ensures !events[i].RungVerdict? && !events[i].WitnessRequested?
  {
    PrefixLegal(events, i + 1);
    var upTo := events[..i + 1];
    assert upTo[..i] == events[..i] && upTo[i] == events[i];
    ReplayMeans(events[..i]);
  }

  /** MAIN. Nothing is commissioned on another candidate's proof: since the last generation
      a declaration was observed whose digest equalled a proposal then standing, made after
      this candidate passed every rung that proposal needed. */
  lemma CommissionIsProved(events: seq<Event>)
    requires Legal(events) && Replay(events).value.commissioned
    ensures exists o :: ProvedDeclaration(Since(events), Replay(events).value.order.plan, o)
  {
    ReplayMeans(events);
  }

  /** Every legal ledger of an order with this plan that ends commissioned has a candidate. */
  ghost predicate CommissionNeedsCandidate(plan: seq<Rung>) {
    forall events | Legal(events) && Replay(events).value.commissioned && Replay(events).value.order.plan == plan ::
      Replay(events).value.iteration > 0 && !Replay(events).value.refused
  }

  predicate ValidPlan(plan: seq<Rung>) { plan != [] && forall i | 0 < i < |plan| :: Rank(plan[i - 1]) < Rank(plan[i]) }

  /** MAIN. Commissioning presupposes an accepted generation exactly when the plan has a rung
      besides the witness: a witness-only order can be proposed, in reduced form, declared
      and commissioned before anything was generated. */
  lemma CandidateBeforeCommission(plan: seq<Rung>)
    requires ValidPlan(plan)
    ensures CommissionNeedsCandidate(plan) <==> plan != [Witness]
  {
    if plan == [Witness] {
      WitnessOnlyGap();
    } else {
      NotOnlyWitness(plan);
      forall events | Legal(events) && Replay(events).value.commissioned && Replay(events).value.order.plan == plan
        ensures Replay(events).value.iteration > 0 && !Replay(events).value.refused
      {
        CommissionedKeepsRungs(events);
      }
    }
  }

  lemma NotOnlyWitness(plan: seq<Rung>)
    requires ValidPlan(plan) && plan != [Witness]
    ensures plan[0] in {Bench, Read, Act}
  {
    assert |plan| > 1 ==> Rank(plan[0]) < Rank(plan[1]);
    assert |plan| == 1 ==> plan == [plan[0]];
    assert |plan| > 1 ==> Rank(plan[1]) <= 3;
    assert plan[0] == Witness || Rank(plan[0]) < 3;
    match plan[0] { case Bench => case Read => case Act => case Witness => }
  }

  /** What a proposal, and with it a declaration, leaves behind in the state. */
  ghost predicate Backed(st: OrderState) {
    && (st.proposed.Some? || st.declared || st.commissioned ==> ProvenFor(st, true))
    && (st.rungsPassed != [] ==> st.iteration > 0 && !st.refused)
  }

  lemma {:induction false} ReplayBacked(events: seq<Event>)
    requires Legal(events)
    ensures Backed(Replay(events).value)
  {
    var n := |events| - 1;
    if n > 0 {
      ReplayBacked(events[..n]);
      ApplyKeepsBacked(Replay(events[..n]).value, events[n]);
    }
  }

  lemma ApplyKeepsBacked(st: OrderState, ev: Event)
    requires Backed(st) && Apply(st, ev).Ok?
    ensures Backed(Apply(st, ev).value)
  {}

  lemma CommissionedKeepsRungs(events: seq<Event>)
    requires Legal(events) && Replay(events).value.commissioned
    requires var plan := Replay(events).value.order.plan; plan != [] && plan[0] in {Bench, Read, Act}
    ensures Replay(events).value.iteration > 0 && !Replay(events).value.refused
  {
    ReplayBacked(events);
    var st := Replay(events).value;
    assert st.order.plan[0] in st.rungsPassed;
  }

  lemma WitnessOnlyGap()
    ensures !CommissionNeedsCandidate([Witness])
  {
    var order := Order("o", {"s"}, "", [Witness]);
    var e1 := [Opened(order)];
    var e2 := e1 + [DeclarationProposed("d", true)];
    var e3 := e2 + [DeclarationObserved("d")];
    var e4 := e3 + [Commissioned("")];
    assert e2[..1] == e1 && e3[..2] == e2 && e4[..3] == e3;
    assert Legal(e1) && Legal(e2) && Legal(e3);
    assert Legal(e4) && Replay(e4).value.commissioned && Replay(e4).value.iteration == 0;
  }

  /** A second proposal does not withdraw the declaration that matched the first: an order
      can be commissioned while the standing proposal was never observed. This is why
      `CommissionIsProved` speaks of the proposal standing at the observation. */
  lemma {:induction false} StaleDeclaration(order: Order, first: seq<Event>, d: string, e: string)
    requires Legal(first) && Replay(first).value.order == order && !Replay(first).value.Terminal()
    requires ProvenFor(Replay(first).value, true) && d != e
    ensures var events := first + [DeclarationProposed(d, true), DeclarationObserved(d), DeclarationProposed(e, true), Commissioned("")];
      Legal(events) && Replay(events).value.commissioned && Replay(events).value.proposed == Some(e)
  {
    var e1 := first + [DeclarationProposed(d, true)];
    var e2 := e1 + [DeclarationObserved(d)];
    var e3 := e2 + [DeclarationProposed(e, true)];
    var e4 := e3 + [Commissioned("")];
    ApplyOne(first, DeclarationProposed(d, true));
    ApplyOne(e1, DeclarationObserved(d));
    ApplyOne(e2, DeclarationProposed(e, true));
    ApplyOne(e3, Commissioned(""));
    assert e4 == first + [DeclarationProposed(d, true), DeclarationObserved(d), DeclarationProposed(e, true), Commissioned("")];
  }

  // ---------------------------------------------------- which proposal a commission rests on

  /** Where the last proposal stands, if there is one. */
  function LastProposal(seg: seq<Event>): (p: Option<nat>)
    ensures p.None? ==> forall q | 0 <= q < |seg| :: !seg[q].DeclarationProposed?
    ensures p.Some? ==> p.value < |seg| && seg[p.value].DeclarationProposed?
                        && forall q | p.value < q < |seg| :: !seg[q].DeclarationProposed?
  {
    if seg == [] then None
    else if seg[|seg| - 1].DeclarationProposed? then Some(|seg| - 1) else LastProposal(seg[..|seg| - 1])
  }

  function LastObservation(seg: seq<Event>): (o: Option<nat>)
    ensures o.None? ==> forall q | 0 <= q < |seg| :: !seg[q].DeclarationObserved?
    ensures o.Some? ==> o.value < |seg| && seg[o.value].DeclarationObserved?
                        && forall q | o.value < q < |seg| :: !seg[q].DeclarationObserved?
  {
    if seg == [] then None
    else if seg[|seg| - 1].DeclarationObserved? then Some(|seg| - 1) else LastObservation(seg[..|seg| - 1])
  }

  function ProposedDigest(seg: seq<Event>): Option<string> {
    match LastProposal(seg) case Some(p) => Some(seg[p].digest) case None => None
  }

  /** The last observation saw the digest that stood proposed at that moment. */
  predicate Matched(seg: seq<Event>) {
    match LastObservation(seg) case Some(o) => ProposedDigest(seg[..o]) == Some(seg[o].digest) case None => false
  }

  lemma {:induction false} ReplayProposes(events: seq<Event>)
    requires Legal(events)
    ensures Replay(events).value.proposed == ProposedDigest(Since(events))
    ensures Replay(events).value.declared <==> Matched(Since(events))
    ensures Replay(events).value.commissioned ==> Replay(events).value.declared
  {
    var n := |events| - 1;
    if n == 0 {
      OpenProposes(events);
    } else {
      hide Apply, ProposedDigest, Matched, LastProposal, LastObservation;
      ReplayProposes(events[..n]);
      ApplyProposes(Replay(events[..n]).value, Since(events[..n]), events[n]);
    }
  }

  lemma OpenProposes(events: seq<Event>)
    requires Legal(events) && |events| == 1
    ensures Replay(events) == Ok(Open(events[0].order)) && Since(events) == [events[0]]
    ensures ProposedDigest(Since(events)).None? && !Matched(Since(events))
  {
    assert Since(events[..0]) == [];
  }

  lemma DigestAt(seg: seq<Event>, ev: Event)
    ensures ProposedDigest(seg + [ev]) == if ev.DeclarationProposed? then Some(ev.digest) else ProposedDigest(seg)
  {
    var next := seg + [ev];
    assert next[..|seg|] == seg;
    if LastProposal(seg).Some? { assert next[LastProposal(seg).value] == seg[LastProposal(seg).value]; }
  }

  lemma MatchedAt(seg: seq<Event>, ev: Event)
    ensures Matched(seg + [ev]) <==> if ev.DeclarationObserved? then ProposedDigest(seg) == Some(ev.digest) else Matched(seg)
  {
    hide ProposedDigest;
    var next := seg + [ev];
    assert next[..|seg|] == seg;
    if LastObservation(seg).Some? {
      var o := LastObservation(seg).value;
      assert next[..o] == seg[..o] && next[o] == seg[o];
    }
  }

  lemma {:induction false} ApplyProposes(st: OrderState, seg: seq<Event>, ev: Event)
    requires Apply(st, ev).Ok? && st.proposed == ProposedDigest(seg) && (st.declared <==> Matched(seg))
    ensures var next := if ev.GenerationReturned? then [] else seg + [ev];
      Apply(st, ev).value.proposed == ProposedDigest(next) && (Apply(st, ev).value.declared <==> Matched(next))
    ensures Apply(st, ev).value.commissioned ==> st.declared && Apply(st, ev).value.declared
  {
    DigestAt(seg, ev);
    MatchedAt(seg, ev);
    NothingProposed();
    hide ProposedDigest, Matched, LastProposal, LastObservation;
  }

  lemma NothingProposed()
    ensures ProposedDigest([]).None? && !Matched([])
  {}

  /** A proposal after `o` that differs from what was observed there, and is the last one. */
  predicate Overrides(seg: seq<Event>, o: nat, p: nat)
    requires o < |seg| && seg[o].DeclarationObserved?
  {
    && o < p < |seg| && seg[p].DeclarationProposed? && seg[p].digest != seg[o].digest
    && forall q | p < q < |seg| :: !seg[q].DeclarationProposed?
  }

  /** MAIN. Which proposal a commission rests on: in every commissioned ledger the last
      observation saw the digest then proposed; and that digest is no longer the standing
      proposal if and only if the last proposal after it is a different one. */
  lemma {:induction false} StaleIff(events: seq<Event>)
    requires Legal(events) && Replay(events).value.commissioned
    ensures Matched(Since(events))
    ensures var seg := Since(events); var o := LastObservation(seg).value;
      Replay(events).value.proposed != Some(seg[o].digest) <==> exists p :: Overrides(seg, o, p)
  {
    ReplayProposes(events);
    var seg := Since(events);
    var o, p := LastObservation(seg).value, LastProposal(seg).value;
    var earlier := LastProposal(seg[..o]).value;
    assert seg[earlier].DeclarationProposed? && seg[earlier].digest == seg[o].digest;
    if p < o {
      assert seg[..o][p] == seg[p];
      assert p == earlier;
    } else if seg[p].digest != seg[o].digest {
      assert Overrides(seg, o, p);
    }
  }

  // -------------------------------------------------------------- what a failure still allows

  /** What passed is known, and a rung that failed has not passed. */
  ghost predicate KnowsPasses(st: OrderState, seg: seq<Event>) {
    && (forall r :: r in st.rungsPassed <==> PassIn(seg, r))
    && (st.iterationBroken <==> FailureIn(seg))
    && forall r | FailedIn(seg, r) :: r !in st.rungsPassed
  }

  ghost predicate FailedIn(seg: seq<Event>, r: Rung) {
    exists i :: 0 <= i < |seg| && seg[i].RungVerdict? && seg[i].rung == r && !seg[i].pass
  }

  lemma VerdictsAt(seg: seq<Event>, ev: Event, r: Rung)
    ensures PassIn(seg + [ev], r) <==> PassIn(seg, r) || (ev.RungVerdict? && ev.rung == r && ev.pass)
    ensures FailedIn(seg + [ev], r) <==> FailedIn(seg, r) || (ev.RungVerdict? && ev.rung == r && !ev.pass)
  {
    var next := seg + [ev];
    assert next[|seg|] == ev;
    if PassIn(seg, r) { PassGrows(seg, [ev], r); }
    if FailedIn(seg, r) {
      var i :| 0 <= i < |seg| && seg[i].RungVerdict? && seg[i].rung == r && !seg[i].pass;
      assert next[i] == seg[i];
    }
  }

  lemma ApplyKnowsPasses(st: OrderState, seg: seq<Event>, ev: Event)
    requires KnowsPasses(st, seg) && Apply(st, ev).Ok?
    ensures KnowsPasses(Apply(st, ev).value, if ev.GenerationReturned? then [] else seg + [ev])
  {
    hide PassIn, FailedIn, FailureIn;
    if ev.GenerationReturned? {
      NothingYet();
    } else {
      FailureAt(seg, ev);
      forall r ensures PassIn(seg + [ev], r) <==> PassIn(seg, r) || (ev.RungVerdict? && ev.rung == r && ev.pass)
        ensures FailedIn(seg + [ev], r) <==> FailedIn(seg, r) || (ev.RungVerdict? && ev.rung == r && !ev.pass) {
        VerdictsAt(seg, ev, r);
      }
      forall r | FailedIn(seg, r) ensures FailureIn(seg) { FailedIsFailure(seg, r); }
    }
  }

  lemma FailedIsFailure(seg: seq<Event>, r: Rung)
    requires FailedIn(seg, r)
    ensures FailureIn(seg)
  {}

  lemma NothingYet()
    ensures !FailureIn([]) && forall r :: !PassIn([], r) && !FailedIn([], r)
  {}

  lemma {:induction false} ReplayKnowsPasses(events: seq<Event>)
    requires Legal(events)
    ensures KnowsPasses(Replay(events).value, Since(events))
  {
    var n := |events| - 1;
    if n > 0 {
      ReplayKnowsPasses(events[..n]);
      ApplyKnowsPasses(Replay(events[..n]).value, Since(events[..n]), events[n]);
    } else {
      assert Since(events[..0]) == [] && Since(events) == [events[0]];
    }
  }

  /** `more` commissions the order without another generation. */
  ghost predicate CommissionsWith(events: seq<Event>, more: seq<Event>) {
    && Legal(events + more) && Replay(events + more).value.commissioned
    && forall i | 0 <= i < |more| :: !more[i].GenerationReturned?
  }

  /** Every bench, read and act rung of the plan has passed since the last generation. */
  ghost predicate MachineRungsPassed(events: seq<Event>)
    requires Legal(events)
  {
    forall r | r in {Bench, Read, Act} && r in Replay(events).value.order.plan :: PassIn(Since(events), r)
  }

  lemma ApplyToBroken(st: OrderState, ev: Event)
    requires st.iterationBroken && Apply(st, ev).Ok? && !ev.GenerationReturned?
    ensures var next := Apply(st, ev).value; next.iterationBroken && next.rungsPassed == st.rungsPassed && next.order == st.order
  {
    hide ProvenFor, Position;
  }

  /** Without a generation a broken iteration stays broken and gains no rung. */
  lemma {:induction false} BrokenGainsNothing(events: seq<Event>, more: seq<Event>)
    requires Legal(events) && Replay(events).value.iterationBroken && Legal(events + more)
    requires forall i | 0 <= i < |more| :: !more[i].GenerationReturned?
    ensures var st, end := Replay(events).value, Replay(events + more).value;
      end.iterationBroken && end.rungsPassed == st.rungsPassed && end.order == st.order
    decreases |more|
  {
    hide Apply;
    var n := |more| - 1;
    if more == [] {
      assert events + more == events;
    } else {
      assert (events + more)[..|events| + n] == events + more[..n];
      BrokenGainsNothing(events, more[..n]);
      ApplyToBroken(Replay(events + more[..n]).value, more[n]);
    }
  }

  /** MAIN. What a failure still allows: an order whose current iteration has failed can be
      commissioned without a new generation if and only if every bench, read and act rung it
      plans had passed. So a failed one of these does end the iteration, while a witness's no,
      or a failed witness rung, does not. */
  lemma {:induction false} BrokenMayBeCommissioned(events: seq<Event>)
    requires Legal(events) && !Replay(events).value.Terminal() && FailureIn(Since(events))
    ensures (exists more :: CommissionsWith(events, more)) <==> MachineRungsPassed(events)
    ensures forall r | r in {Bench, Read, Act} && FailedIn(Since(events), r) && r in Replay(events).value.order.plan ::
              !MachineRungsPassed(events)
  {
    hide PassIn, FailedIn, FailureIn;
    ReplayKnowsPasses(events);
    if more :| CommissionsWith(events, more) {
      BrokenGainsNothing(events, more);
      ReplayBacked(events + more);
    }
    if MachineRungsPassed(events) {
      CommissionNow(events);
    }
  }

  lemma {:induction false} CommissionNow(events: seq<Event>)
    requires Legal(events) && !Replay(events).value.Terminal() && ProvenFor(Replay(events).value, true)
    ensures CommissionsWith(events, [DeclarationProposed("", true), DeclarationObserved(""), Commissioned("")])
  {
    var more := [DeclarationProposed("", true), DeclarationObserved(""), Commissioned("")];
    var e1 := events + [more[0]];
    var e2 := e1 + [more[1]];
    ApplyOne(events, more[0]);
    ApplyOne(e1, more[1]);
    ApplyOne(e2, more[2]);
    assert e2 + [more[2]] == events + more;
  }

  lemma ApplyOne(events: seq<Event>, ev: Event)
    requires Legal(events)
    ensures Replay(events + [ev]) == Apply(Replay(events).value, ev)
  {
    assert (events + [ev])[..|events|] == events;
  }

  /** Such a ledger: the bench passed, the witness said no. */
  lemma WitnessSaidNo(order: Order)
    requires ValidOrder(order) && order.plan == [Bench]
    ensures var events := [Opened(order), GenerationReturned(1, "c", false, [], order.lock), RungVerdict(1, Bench, true),
                           WitnessRequested(1, "r"), WitnessAnswered(1, "r", No)];
      && Legal(events) && !Replay(events).value.Terminal() && FailureIn(Since(events)) && MachineRungsPassed(events)
  {
    var e1 := [Opened(order)];
    var e2 := e1 + [GenerationReturned(1, "c", false, [], order.lock)];
    var e3 := e2 + [RungVerdict(1, Bench, true)];
    var e4 := e3 + [WitnessRequested(1, "r")];
    var e5 := e4 + [WitnessAnswered(1, "r", No)];
    assert e2[..1] == e1 && e3[..2] == e2 && e4[..3] == e3 && e5[..4] == e4;
    assert Legal(e1) && Legal(e2);
    assert Legal(e3) && Replay(e3).value.rungsPassed == [Bench];
    assert Legal(e4) && Legal(e5) && Replay(e5).value.iterationBroken;
    assert e5 == [Opened(order), GenerationReturned(1, "c", false, [], order.lock), RungVerdict(1, Bench, true),
                  WitnessRequested(1, "r"), WitnessAnswered(1, "r", No)];
    ReplayKnowsPasses(e5);
  }

  // ------------------------------------------------------------------------ the law, outright

  /** Commissioned or closed: nothing follows. */
  ghost predicate Ended(events: seq<Event>) { exists i :: 0 <= i < |events| && (events[i].Commissioned? || events[i].Closed?) }

  /** The last generation was a refusal. */
  ghost predicate RefusedNow(events: seq<Event>) {
    exists g :: 0 <= g < |events| && events[g].GenerationReturned? && events[g].refused
                && forall j | g < j < |events| :: !events[j].GenerationReturned?
  }

  /** A witness request that no answer has followed. */
  ghost predicate Standing(seg: seq<Event>, request: string) {
    exists i :: 0 <= i < |seg| && seg[i].WitnessRequested? && seg[i].request == request
                && forall j | i < j < |seg| :: !seg[j].WitnessAnswered?
  }

  ghost predicate SaidYes(seg: seq<Event>) { exists i :: 0 <= i < |seg| && seg[i].WitnessAnswered? && seg[i].answer == Yes }

  ghost predicate ProposalIn(seg: seq<Event>) { exists i :: 0 <= i < |seg| && seg[i].DeclarationProposed? }

  /** A rung is next in the plan: it has not passed, and the one before it has. */
  ghost predicate NextInPlan(plan: seq<Rung>, seg: seq<Event>, rung: Rung) {
    !PassIn(seg, rung) && exists k :: 0 <= k < |plan| && plan[k] == rung && (k > 0 ==> PassIn(seg, plan[k - 1]))
  }

  /** The law of the ledger: which event may follow these, in terms of them alone. */
  ghost predicate Allowed(before: seq<Event>, ev: Event)
    requires before != [] && before[0].Opened?
  {
    var order, seg := before[0].order, Since(before);
    && !Ended(before)
    && match ev
       case Opened(_) => false
       case GenerationReturned(iteration, _, refused, surface, lock) =>
         iteration == Count(before) + 1 && (refused || ((forall s | s in surface :: s in order.surface) && lock == order.lock))
       case RungVerdict(iteration, rung, pass) =>
         && iteration == Count(before) > 0 && !RefusedNow(before) && !FailureIn(seg)
         && NextInPlan(order.plan, seg, rung) && (pass && rung == Witness ==> YesIn(seg))
       case WitnessRequested(iteration, _) =>
         iteration == Count(before) > 0 && !FailureIn(seg) && forall r :: !Standing(seg, r)
       case WitnessAnswered(iteration, request, _) => iteration == Count(before) && Standing(seg, request)
       case DeclarationProposed(_, reduced) =>
         forall r | r in order.plan :: PassIn(seg, r) || (reduced && r == Witness)
       case DeclarationObserved(_) => ProposalIn(seg)
       case Commissioned(_) => Matched(seg)
       case Parked(_) => true
       case Closed(_) => true
  }

  ghost predicate Lawful(events: seq<Event>) {
    && events != [] && events[0].Opened? && ValidOrder(events[0].order)
    && forall i | 0 < i < |events| :: Allowed(events[..i], events[i])
  }

  /** The rest of what the state knows. */
  ghost predicate Stands(st: OrderState, events: seq<Event>) {
    && (st.Terminal() <==> Ended(events)) && (st.refused <==> RefusedNow(events))
    && (forall r :: st.witnessOutstanding == Some(r) <==> Standing(Since(events), r))
    && (st.witnessPassed <==> SaidYes(Since(events)))
  }

  lemma EndedAt(events: seq<Event>, ev: Event)
    ensures Ended(events + [ev]) <==> Ended(events) || ev.Commissioned? || ev.Closed?
  {
    var next := events + [ev];
    assert next[|events|] == ev && forall i | 0 <= i < |events| :: next[i] == events[i];
  }

  lemma RefusedAt(events: seq<Event>, ev: Event)
    ensures RefusedNow(events + [ev]) <==> if ev.GenerationReturned? then ev.refused else RefusedNow(events)
  {
    var next := events + [ev];
    assert next[|events|] == ev && forall i | 0 <= i < |events| :: next[i] == events[i];
    if RefusedNow(events) && !ev.GenerationReturned? {
      var g :| 0 <= g < |events| && events[g].GenerationReturned? && events[g].refused
               && forall j | g < j < |events| :: !events[j].GenerationReturned?;
      assert next[g].refused;
    }
  }

  lemma StandingAt(seg: seq<Event>, ev: Event, r: string)
    ensures Standing(seg + [ev], r) <==> (Standing(seg, r) && !ev.WitnessAnswered?) || (ev.WitnessRequested? && ev.request == r)
  {
    var next := seg + [ev];
    assert next[|seg|] == ev && forall i | 0 <= i < |seg| :: next[i] == seg[i];
    if Standing(seg, r) && !ev.WitnessAnswered? {
      var i :| 0 <= i < |seg| && seg[i].WitnessRequested? && seg[i].request == r && forall j | i < j < |seg| :: !seg[j].WitnessAnswered?;
      assert next[i].request == r;
    }
  }

  lemma YesAt(seg: seq<Event>, ev: Event)
    ensures SaidYes(seg + [ev]) <==> SaidYes(seg) || (ev.WitnessAnswered? && ev.answer == Yes)
  {
    var next := seg + [ev];
    assert next[|seg|] == ev && forall i | 0 <= i < |seg| :: next[i] == seg[i];
  }

  lemma SegmentAt(events: seq<Event>, ev: Event)
    ensures Since(events + [ev]) == if ev.GenerationReturned? then [] else Since(events) + [ev]
  {
    assert (events + [ev])[..|events|] == events;
  }

  lemma ApplyStands(st: OrderState, events: seq<Event>, ev: Event)
    requires Stands(st, events) && Apply(st, ev).Ok?
    ensures Stands(Apply(st, ev).value, events + [ev])
  {
    EndedAt(events, ev);
    RefusedAt(events, ev);
    SegmentAt(events, ev);
    NoWitnessYet();
    YesAt(Since(events), ev);
    hide Since, Ended, RefusedNow, SaidYes, Standing, ProvenFor, Position;
    var seg := Since(events);
    forall r ensures Standing(seg + [ev], r) <==> (Standing(seg, r) && !ev.WitnessAnswered?) || (ev.WitnessRequested? && ev.request == r) {
      StandingAt(seg, ev, r);
    }
    var next := Apply(st, ev).value;
    forall r ensures next.witnessOutstanding == Some(r) <==> Standing(Since(events + [ev]), r) {
      assert st.witnessOutstanding == Some(r) <==> Standing(seg, r);
    }
  }

  lemma NoWitnessYet()
    ensures !SaidYes([]) && forall r :: !Standing([], r)
  {}

  lemma {:induction false} ReplayStands(events: seq<Event>)
    requires Legal(events)
    ensures Stands(Replay(events).value, events)
  {
    var n := |events| - 1;
    if n == 0 {
      assert Since(events[..0]) == [] && Since(events) == [events[0]];
    } else {
      ReplayStands(events[..n]);
      ApplyStands(Replay(events[..n]).value, events[..n], events[n]);
      assert events[..n] + [events[n]] == events;
    }
  }

  lemma {:induction false} PositionIs(plan: seq<Rung>, r: Rung)
    ensures match Position(plan, r)
      case None => r !in plan
      case Some(k) => k < |plan| && plan[k] == r && forall j | 0 <= j < k :: plan[j] != r
  {
    if plan != [] && plan[0] != r {
      PositionIs(plan[1..], r);
      assert plan == [plan[0]] + plan[1..];
    }
  }

  lemma {:induction false} PlanIsDistinct(plan: seq<Rung>, i: nat, j: nat)
    requires ValidPlan(plan) && i < j < |plan|
    ensures Rank(plan[i]) < Rank(plan[j])
    decreases j
  {
    if i < j - 1 { PlanIsDistinct(plan, i, j - 1); }
  }

  /** What the position test of a verdict amounts to, for a valid plan. */
  lemma PositionTest(plan: seq<Rung>, passed: seq<Rung>, r: Rung)
    requires ValidPlan(plan)
    ensures var pos := Position(plan, r);
      (pos.Some? && !(0 < pos.value < |plan| && plan[pos.value - 1] !in passed))
      <==> exists k :: 0 <= k < |plan| && plan[k] == r && (k > 0 ==> plan[k - 1] in passed)
  {
    PositionIs(plan, r);
    if k :| 0 <= k < |plan| && plan[k] == r && (k > 0 ==> plan[k - 1] in passed) {
      var p := Position(plan, r).value;
      if p < k { PlanIsDistinct(plan, p, k); }
    }
  }

  lemma YesIsSaid(seg: seq<Event>)
    ensures YesIn(seg) ==> SaidYes(seg)
  {}

  lemma VerdictTest(st: OrderState, seg: seq<Event>, rung: Rung)
    requires KnowsPasses(st, seg) && ValidPlan(st.order.plan)
    ensures var plan, pos := st.order.plan, Position(st.order.plan, rung);
      (pos.Some? && rung !in st.rungsPassed && !(0 < pos.value < |plan| && plan[pos.value - 1] !in st.rungsPassed))
      <==> NextInPlan(plan, seg, rung)
  {
    hide PassIn, FailureIn, FailedIn, Position;
    PositionTest(st.order.plan, st.rungsPassed, rung);
  }

  lemma ProposalTest(st: OrderState, seg: seq<Event>, reduced: bool)
    requires KnowsPasses(st, seg)
    ensures ProvenFor(st, reduced) <==> forall r | r in st.order.plan :: PassIn(seg, r) || (reduced && r == Witness)
  {
    hide PassIn, FailureIn, FailedIn;
    forall r | r in st.order.plan ensures r in {Bench, Read, Act} || r == Witness {
      match r { case Bench => case Read => case Act => case Witness => }
    }
  }

  lemma ProposedIn(seg: seq<Event>)
    ensures ProposedDigest(seg).Some? <==> ProposalIn(seg)
  {}

  /** What a state takes is what the law allows, once its fields are known to be facts. */
  lemma ApplyIff(st: OrderState, before: seq<Event>, ev: Event)
    requires before != [] && before[0] == Opened(st.order) && st.iteration == Count(before) && Stands(st, before)
    requires var seg := Since(before);
      && (st.iterationBroken <==> FailureIn(seg)) && (st.witnessPassed <==> YesIn(seg))
      && (st.proposed.Some? <==> ProposalIn(seg)) && (st.declared <==> Matched(seg))
      && (ev.RungVerdict? ==>
            var plan, pos := st.order.plan, Position(st.order.plan, ev.rung);
            (pos.Some? && ev.rung !in st.rungsPassed && !(0 < pos.value < |plan| && plan[pos.value - 1] !in st.rungsPassed))
            <==> NextInPlan(plan, seg, ev.rung))
      && (ev.DeclarationProposed? ==>
            (ProvenFor(st, ev.reduced) <==> forall r | r in st.order.plan :: PassIn(seg, r) || (ev.reduced && r == Witness)))
    ensures Apply(st, ev).Ok? <==> Allowed(before, ev)
  {
    hide Since, Count, Ended, RefusedNow, FailureIn, PassIn, YesIn, SaidYes, Standing, Matched, Position, ProposalIn, NextInPlan, ProvenFor;
    if ev.WitnessRequested? && st.witnessOutstanding.Some? { assert Standing(Since(before), st.witnessOutstanding.value); }
  }

  /** The door, exactly: a replayable ledger takes an event if and only if the law allows it. */
  lemma {:induction false} DoorIff(before: seq<Event>, ev: Event)
    requires Legal(before)
    ensures before[0].Opened? && (Legal(before + [ev]) <==> Allowed(before, ev))
  {
    ApplyOne(before, ev);
    ReplayCounts(before);
    ReplayStands(before);
    ReplayKnowsPasses(before);
    ReplayProposes(before);
    ReplayMeans(before);
    var st, seg := Replay(before).value, Since(before);
    YesIsSaid(seg);
    ProposedIn(seg);
    if ev.RungVerdict? { VerdictTest(st, seg, ev.rung); }
    if ev.DeclarationProposed? { ProposalTest(st, seg, ev.reduced); }
    hide Replay, Since, Count, Ended, RefusedNow, FailureIn, PassIn, YesIn, SaidYes, Standing, Matched, Position, ProposalIn,
         NextInPlan, ProvenFor, ProposedDigest, FailedIn, Apply, Allowed, ProvedProposal, ProvedDeclaration;
    ApplyIff(st, before, ev);
  }

  lemma LawfulMore(before: seq<Event>, ev: Event)
    requires before != [] && before[0].Opened?
    ensures Lawful(before + [ev]) <==> Lawful(before) && Allowed(before, ev)
  {
    hide Allowed;
    var all := before + [ev];
    assert all[|before|] == ev && all[..|before|] == before && all[0] == before[0];
    assert forall i | 0 <= i < |before| :: all[i] == before[i] && all[..i] == before[..i];
  }

  /** MAIN. The ledger's law, outright: a sequence of events replays if and only if it opens with
      a valid order and each later event is allowed by those before it -- generations numbered
      on, within the order's surface and lock; verdicts for the accepted and unbroken
      candidate, rung by rung in the order of the plan, the witness rung only on a yes; one
      question to the witness at a time; proposals once the plan has passed, observations once
      something is proposed, a commission only on a match; and nothing after the end. */
  lemma {:induction false} LegalIff(events: seq<Event>)
    ensures Legal(events) <==> Lawful(events)
    decreases |events|
  {
    var n := |events| - 1;
    if n > 0 {
      var before, ev := events[..n], events[n];
      assert before + [ev] == events;
      LegalIff(before);
      if Legal(before) { DoorIff(before, ev); }
      if before[0].Opened? { LawfulMore(before, ev); }
      if !Legal(before) { IllegalStart(events, n); }
    }
  }

  // ----------------------------------------------------------------------- the door

  /** A typed generation outcome. `wellFormed` is the part of `validate_outcome` about the
      manifest and the roles of its files. */
  datatype Outcome =
    | Refusal(code: string)
    | Candidate(digest: string, wellFormed: bool, effects: seq<string>, surface: seq<string>, lock: string)

  predicate ValidOutcome(order: Order, o: Outcome) {
    o.Refusal? ||
    (&& o.wellFormed && o.lock == order.lock
     && (forall e | e in o.effects :: e in order.surface) && (forall s | s in o.surface :: s in order.surface))
  }

  function GenerationEvent(iteration: nat, o: Outcome): Event {
    match o
    case Refusal(code) => GenerationReturned(iteration, code, true, [], "")
    case Candidate(digest, _, _, surface, lock) => GenerationReturned(iteration, digest, false, surface, lock)
  }

  /** The door for generations: the outcome must fit the order that this very ledger records. */
  predicate Admits(events: seq<Event>, iteration: nat, o: Outcome) {
    Legal(events) && ValidOutcome(Replay(events).value.order, o) && Legal(events + [GenerationEvent(iteration, o)])
  }

  /** Which generations pass the door: the next in number, on a ledger that has not ended, and
      either a refusal or a well-formed candidate with the order's own lock that needs no effect
      and no surface beyond the order's. */
  lemma AdmitsIff(events: seq<Event>, iteration: nat, o: Outcome)
    requires Legal(events) && events[0].Opened?
    ensures Admits(events, iteration, o) <==>
      && !Ended(events) && iteration == Count(events) + 1
      && match o
         case Refusal(_) => true
         case Candidate(_, wellFormed, effects, surface, lock) =>
           && wellFormed && lock == events[0].order.lock
           && forall e | e in effects + surface :: e in events[0].order.surface
  {
    DoorIff(events, GenerationEvent(iteration, o));
    ReplayCounts(events);
    hide Replay, Ended, Count;
  }

  // --------------------------------------------------------------------------- the file

  class LedgerFile {
    var events: seq<Event>

    constructor (order: Order)
      requires ValidOrder(order)
      ensures events == [Opened(order)] && Legal(events)
    {
      events := [Opened(order)];
    }

    /** `replay` as the source runs it. */
    method State() returns (r: Result<OrderState>)
      ensures r == Replay(events)
    {
      if |events| == 0 || !events[0].Opened? || !ValidOrder(events[0].order) {
        if |events| > 0 { IllegalStart(events, 1); }
        return Err;
      }
      r := Ok(Open(events[0].order));
      var n := 1;
      while n < |events|
        invariant 1 <= n <= |events| && r == Replay(events[..n]) && r.Ok?
      {
        assert events[..n + 1][..n] == events[..n];
        r := Apply(r.value, events[n]);
        n := n + 1;
        if r.Err? {
          IllegalStart(events, n);
          return;
        }
      }
      assert events[..n] == events;
    }

    /** Appends any event but a generation. */
    method Append(ev: Event) returns (ok: bool)
      modifies this
      ensures ok <==> !ev.GenerationReturned? && Legal(old(events) + [ev])
      ensures events == if ok then old(events) + [ev] else old(events)
    {
      if ev.GenerationReturned? { return false; }
      ok := WriteValidated(ev);
    }

    /** Appends a generation, from an outcome that fits the recorded order. */
    method AppendGeneration(iteration: nat, o: Outcome) returns (ok: bool)
      modifies this
      ensures ok <==> Admits(old(events), iteration, o)
      ensures events == if ok then old(events) + [GenerationEvent(iteration, o)] else old(events)
    {
      var st := State();
      if st.Err? || !ValidOutcome(st.value.order, o) { return false; }
      ok := WriteValidated(GenerationEvent(iteration, o));
    }

    /** Append after replaying the whole file plus the new event; a refused event leaves no
        trace. */
    method WriteValidated(ev: Event) returns (ok: bool)
      modifies this
      ensures ok <==> Legal(old(events) + [ev])
      ensures events == if ok then old(events) + [ev] else old(events)
    {
      var before := events;
      events := events + [ev];
      var st := State();
      ok := st.Ok?;
      if !ok { events := before; }
    }
  }

  lemma {:induction false} IllegalStart(events: seq<Event>, n: nat)
    requires 0 < n <= |events| && !Legal(events[..n])
    ensures Replay(events) == Err
  {
    if n == |events| {
      assert events[..n] == events;
    } else {
      assert events[..|events| - 1][..n] == events[..n];
      IllegalStart(events[..|events| - 1], n);
    }
  }
}
