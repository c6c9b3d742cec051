/** The convergence loop: generate, record, run the bench oracle, record, and retry with the
    failure fed back -- resuming from the ledger and never from a counter of its own.

    What the adapter returns and what the bench finds are arbitrary functions. */
module Converge {
  import opened Ledger
  import opened Wrappers

  datatype BenchReport = BenchReport(passed: bool, failure: string)

  /** Generation gets the iteration's place and the feedback; materialising and benching get
      its candidate. Any of them may fail outright. */
  datatype World = World(generate: (nat, Option<string>) -> Result<Outcome>, bench: (nat, Outcome) -> Result<BenchReport>)

  datatype Ending = Converged(iteration: nat) | Refused(iteration: nat, code: string) | Exhausted(iterations: nat)
                  | InvalidOutcome(iteration: nat) | Aborted

  datatype Report = Report(events: seq<Event>, ending: Ending, passes: seq<bool>)

  /** How one turn of the loop ends: the call is over, or the bench failed and the ledger
      has grown by a generation and its verdict. */
  datatype Turn = Over(report: Report) | Again(events: seq<Event>, failure: string)

  function OneTurn(order: Order, w: World, events: seq<Event>, iteration: nat, feedback: Option<string>): Turn {
    var answer := w.generate(iteration, feedback);
    if answer.Err? then Over(Report(events, Aborted, []))
    else var o := answer.value;
    if !ValidOutcome(order, o) then Over(Report(events, InvalidOutcome(iteration), []))
    else
      var generated := events + [GenerationEvent(iteration, o)];
      if !Admits(events, iteration, o) then Over(Report(events, Aborted, []))
      else if o.Refusal? then Over(Report(generated, Refused(iteration, o.code), []))
      else
        var benched := w.bench(iteration, o);
        if benched.Err? then Over(Report(generated, Aborted, []))
        else var b := benched.value;
        var judged := generated + [RungVerdict(iteration, Bench, b.passed)];
        if !Legal(judged) then Over(Report(generated, Aborted, [b.passed]))
        else if b.passed then Over(Report(judged, Converged(iteration), [true]))
        else Again(judged, b.failure)
  }

  /** The loop from `iteration` up to the cap. */
  function Loop(order: Order, w: World, events: seq<Event>, iteration: nat, cap: nat, feedback: Option<string>): Report
    decreases cap + 1 - iteration
  {
    if iteration > cap then Report(events, Exhausted(cap), [])
    else match OneTurn(order, w, events, iteration, feedback)
      case Over(report) => report
      case Again(more, failure) =>
        var rest := Loop(order, w, more, iteration + 1, cap, Some(failure));
        Report(rest.events, rest.ending, [false] + rest.passes)
  }

  /** A whole call: state from the ledger, first prompt from the order alone. */
  function Call(w: World, events: seq<Event>, cap: nat): Report {
    match Replay(events)
    case Err => Report(events, Aborted, [])
    case Ok(st) =>
      if st.Terminal() then Report(events, Aborted, [])
      else Loop(st.order, w, events, st.iteration + 1, cap, None)
  }

  // ------------------------------------------------------------------------- the loop

  class Runner {
    const ledger: LedgerFile

    constructor (ledger: LedgerFile)
      ensures this.ledger == ledger
    {
      this.ledger := ledger;
    }

    method Converge(w: World, cap: nat) returns (ending: Ending, passes: seq<bool>)
      modifies ledger
      ensures Report(ledger.events, ending, passes) == Call(w, old(ledger.events), cap)
    {
      hide Apply, Replay, OneTurn;
      var state := ledger.State();
      if state.Err? { return Aborted, []; }
      var st := state.value;
      if st.Terminal() { return Aborted, []; }
      passes := [];
      var feedback: Option<string> := None;
      var iteration := st.iteration + 1;
      ghost var whole := Call(w, old(ledger.events), cap);
      while iteration <= cap
        invariant iteration >= 1
        invariant var rest := Loop(st.order, w, ledger.events, iteration, cap, feedback);
          whole == Report(rest.events, rest.ending, passes + rest.passes)
        decreases cap + 1 - iteration
      {
        var over, end, benched, failure := Turn(w, st.order, iteration, feedback);
        passes := passes + benched;
        if over { return end, passes; }
        feedback := Some(failure);
        iteration := iteration + 1;
      }
      ending := Exhausted(cap);
    }

    /** The body of the loop: over, with this ending, or a failure to feed back. */
    method Turn(w: World, order: Order, iteration: nat, feedback: Option<string>)
      returns (over: bool, ending: Ending, benched: seq<bool>, failure: string)
      modifies ledger
      ensures var turn := OneTurn(order, w, old(ledger.events), iteration, feedback);
        if over then turn == Over(Report(ledger.events, ending, benched))
        else turn == Again(ledger.events, failure) && benched == [false]
    {
      hide Apply, Replay, ValidOutcome, GenerationEvent;
      over, ending, benched, failure := true, Aborted, [], "";
      var answer := w.generate(iteration, feedback);
      if answer.Err? { return; }
      var o := answer.value;
      if !ValidOutcome(order, o) {
        ending := InvalidOutcome(iteration);
        return;
      }
      var recorded := ledger.AppendGeneration(iteration, o);
      if !recorded { return; }
      if o.Refusal? {
        ending := Refused(iteration, o.code);
        return;
      }
      var report := w.bench(iteration, o);
      if report.Err? { return; }
      benched := [report.value.passed];
      recorded := ledger.Append(RungVerdict(iteration, Bench, report.value.passed));
      if !recorded { return; }
      if report.value.passed {
        ending := Converged(iteration);
        return;
      }
      over, failure := false, report.value.failure;
    }
  }

  // ------------------------------------------------------------------------ properties

  lemma ReplayStep(events: seq<Event>, ev: Event)
    requires Legal(events) && Legal(events + [ev])
    ensures Replay(events + [ev]).value.order == Replay(events).value.order
    ensures Replay(events + [ev]).value.iteration == Replay(events).value.iteration + (if ev.GenerationReturned? then 1 else 0)
    ensures ev.GenerationReturned? || ev.RungVerdict? ==> !Replay(events + [ev]).value.Terminal()
  {
    assert (events + [ev])[..|events|] == events;
    ApplyCounts(Replay(events).value, ev);
  }

  /** One turn appends, keeps the ledger replayable, and counts its own generation. */
  lemma TurnKeeps(order: Order, w: World, events: seq<Event>, iteration: nat, feedback: Option<string>)
    requires Legal(events)
    ensures match OneTurn(order, w, events, iteration, feedback)
      case Over(r) => Legal(r.events) && events <= r.events && !r.ending.Exhausted?
      case Again(more, _) =>
        Legal(more) && events <= more && !Replay(more).value.Terminal()
        && Replay(more).value.order == Replay(events).value.order
        && Replay(more).value.iteration == Replay(events).value.iteration + 1
  {
    if w.generate(iteration, feedback).Ok? {
      var o := w.generate(iteration, feedback).value;
      var generated := events + [GenerationEvent(iteration, o)];
      if Legal(generated) {
        ReplayStep(events, GenerationEvent(iteration, o));
        if w.bench(iteration, o).Ok? {
          var v := RungVerdict(iteration, Bench, w.bench(iteration, o).value.passed);
          if Legal(generated + [v]) { ReplayStep(generated, v); }
        }
      }
    }
  }

  /** A call only ever appends, and keeps the ledger replayable. */
  lemma {:induction false} LoopAppends(order: Order, w: World, events: seq<Event>, iteration: nat, cap: nat, feedback: Option<string>)
    requires Legal(events)
    ensures var r := Loop(order, w, events, iteration, cap, feedback); Legal(r.events) && events <= r.events
    decreases cap + 1 - iteration
  {
    hide Apply, OneTurn;
    if iteration <= cap {
      TurnKeeps(order, w, events, iteration, feedback);
      var t := OneTurn(order, w, events, iteration, feedback);
      if t.Again? { LoopAppends(order, w, t.events, iteration + 1, cap, Some(t.failure)); }
    }
  }

  /** MAIN. Over any number of calls on one ledger, with any caps and any worlds, every
      generation the ledger ends up with is numbered 1, 2, ... and every bench verdict is for
      the generation just before it. */
  lemma {:induction false} CallsKeepNumbering(ws: seq<World>, caps: seq<nat>, events: seq<Event>, i: nat)
    requires |ws| == |caps| && Legal(events)
    requires i < |Calls(ws, caps, events)|
    ensures Legal(Calls(ws, caps, events)) && events <= Calls(ws, caps, events)
    ensures var all := Calls(ws, caps, events);
      && (all[i].GenerationReturned? ==> all[i].iteration == Count(all[..i]) + 1)
      && (all[i].RungVerdict? ==> all[i].iteration == Count(all[..i]) > 0)
    decreases |ws|
  {
    if ws == [] {
      Numbering(events, i);
    } else {
      var st := Replay(events).value;
      if !st.Terminal() { LoopAppends(st.order, ws[0], events, st.iteration + 1, caps[0], None); }
      CallsKeepNumbering(ws[1..], caps[1..], Call(ws[0], events, caps[0]).events, i);
    }
  }

  /** The ledger after a sequence of calls, each on what the one before it left. */
  function Calls(ws: seq<World>, caps: seq<nat>, events: seq<Event>): seq<Event>
    requires |ws| == |caps|
    decreases |ws|
  {
    if ws == [] then events else Calls(ws[1..], caps[1..], Call(ws[0], events, caps[0]).events)
  }

  /** The feedback an exhausted loop was holding when it stopped. */
  function LastFeedback(order: Order, w: World, events: seq<Event>, iteration: nat, cap: nat, feedback: Option<string>): Option<string>
    decreases cap + 1 - iteration
  {
    if iteration > cap then feedback
    else match OneTurn(order, w, events, iteration, feedback)
      case Over(_) => feedback
      case Again(more, failure) => LastFeedback(order, w, more, iteration + 1, cap, Some(failure))
  }

  predicate Exhausts(r: Report) { r.ending.Exhausted? }

  function Then(first: Report, second: Report): Report { Report(second.events, second.ending, first.passes + second.passes) }

  /** An exhausted loop is a prefix of the loop with a larger cap. */
  lemma {:induction false} LoopSplits(order: Order, w: World, events: seq<Event>, iteration: nat, cap: nat, larger: nat, feedback: Option<string>)
    requires Legal(events) && iteration == Replay(events).value.iteration + 1 && iteration <= cap + 1 && cap <= larger
    requires !Replay(events).value.Terminal() && Exhausts(Loop(order, w, events, iteration, cap, feedback))
    ensures var first := Loop(order, w, events, iteration, cap, feedback);
      var held := LastFeedback(order, w, events, iteration, cap, feedback);
      && Legal(first.events) && Replay(first.events).value.iteration == cap && !Replay(first.events).value.Terminal()
      && Replay(first.events).value.order == Replay(events).value.order
      && Loop(order, w, events, iteration, larger, feedback) == Then(first, Loop(order, w, first.events, cap + 1, larger, held))
    decreases cap + 1 - iteration
  {
    hide Apply, OneTurn;
    if iteration <= cap {
      TurnKeeps(order, w, events, iteration, feedback);
      var t := OneTurn(order, w, events, iteration, feedback);
      LoopSplits(order, w, t.events, iteration + 1, cap, larger, Some(t.failure));
      var first := Loop(order, w, t.events, iteration + 1, cap, Some(t.failure));
      var held := LastFeedback(order, w, t.events, iteration + 1, cap, Some(t.failure));
      Reassociate(first.passes, Loop(order, w, first.events, cap + 1, larger, held).passes);
    } else {
      var second := Loop(order, w, events, cap + 1, larger, feedback);
      assert [] + second.passes == second.passes;
    }
  }

  lemma Reassociate(a: seq<bool>, b: seq<bool>)
    ensures [false] + (a + b) == [false] + a + b
  {}

  /** Resuming an exhausted run with a larger cap records exactly what one run with
      that cap would have recorded, and ends the same way, as soon as the adapter answers
      the first resumed request alike with and without the feedback the restart forgets. */
  lemma ResumeIsOneRun(w: World, events: seq<Event>, cap: nat, larger: nat)
    requires Legal(events) && !Replay(events).value.Terminal() && Replay(events).value.iteration <= cap <= larger
    requires Exhausts(Call(w, events, cap))
    requires w.generate(cap + 1, Held(w, events, cap)) == w.generate(cap + 1, None)
    ensures Call(w, events, larger) == Then(Call(w, events, cap), Call(w, Call(w, events, cap).events, larger))
  {
    hide Apply, Replay, OneTurn;
    var st := Replay(events).value;
    LoopSplits(st.order, w, events, st.iteration + 1, cap, larger, None);
    var first := Call(w, events, cap);
    var held := LastFeedback(st.order, w, events, st.iteration + 1, cap, None);
    SameAnswer(st.order, w, first.events, cap + 1, held, None);
  }

  lemma SameAnswer(order: Order, w: World, events: seq<Event>, iteration: nat, a: Option<string>, b: Option<string>)
    requires w.generate(iteration, a) == w.generate(iteration, b)
    ensures OneTurn(order, w, events, iteration, a) == OneTurn(order, w, events, iteration, b)
  {}

  /** An answer that the loop records: neither a failure nor an invalid outcome. */
  predicate Recordable(order: Order, answer: Result<Outcome>) { answer.Ok? && ValidOutcome(order, answer.value) }

  /** The digest of a candidate stands for the whole of it. */
  predicate DigestTells(a: Result<Outcome>, b: Result<Outcome>) {
    a.Ok? && b.Ok? && a.value.Candidate? && b.value.Candidate? && a.value.digest == b.value.digest ==> a == b
  }

  /** MAIN. And exactly then: resuming records what one run would if and only if the adapter
      answers the first resumed request alike with and without the forgotten feedback, or
      neither answer can be recorded at all. */
  lemma ResumeAgreesIff(w: World, events: seq<Event>, cap: nat, larger: nat)
    requires Legal(events) && !Replay(events).value.Terminal() && Replay(events).value.iteration <= cap < larger
    requires Exhausts(Call(w, events, cap))
    requires DigestTells(w.generate(cap + 1, Held(w, events, cap)), w.generate(cap + 1, None))
    ensures var order, a, b := Replay(events).value.order, w.generate(cap + 1, Held(w, events, cap)), w.generate(cap + 1, None);
      Call(w, events, larger).events == Call(w, Call(w, events, cap).events, larger).events
      <==> a == b || (!Recordable(order, a) && !Recordable(order, b))
  {
    hide Apply, Replay, OneTurn;
    var st := Replay(events).value;
    LoopSplits(st.order, w, events, st.iteration + 1, cap, larger, None);
    var first, held := Call(w, events, cap).events, Held(w, events, cap);
    SameAnswerSameLoop(st.order, w, first, cap + 1, larger, held, None);
    FirstRecorded(st.order, w, first, cap + 1, larger, held);
    FirstRecorded(st.order, w, first, cap + 1, larger, None);
  }

  /** What an exhausted call was holding when it stopped. */
  function Held(w: World, events: seq<Event>, cap: nat): Option<string> {
    match Replay(events)
    case Err => None
    case Ok(st) => LastFeedback(st.order, w, events, st.iteration + 1, cap, None)
  }

  lemma SameAnswerSameLoop(order: Order, w: World, events: seq<Event>, iteration: nat, cap: nat, a: Option<string>, b: Option<string>)
    requires iteration <= cap
    ensures w.generate(iteration, a) == w.generate(iteration, b) ==>
      Loop(order, w, events, iteration, cap, a) == Loop(order, w, events, iteration, cap, b)
  {
    if w.generate(iteration, a) == w.generate(iteration, b) { SameAnswer(order, w, events, iteration, a, b); }
  }

  /** In particular, two valid candidates with different digests leave different ledgers. */
  lemma {:induction false} ForgottenFeedbackShows(w: World, events: seq<Event>, cap: nat, larger: nat)
    requires Legal(events) && !Replay(events).value.Terminal() && Replay(events).value.iteration <= cap < larger
    requires Exhausts(Call(w, events, cap))
    requires var order, a, b := Replay(events).value.order, w.generate(cap + 1, Held(w, events, cap)), w.generate(cap + 1, None);
      Recordable(order, a) && Recordable(order, b) && a.value.Candidate? && b.value.Candidate? && a.value.digest != b.value.digest
    ensures Call(w, events, larger).events != Call(w, Call(w, events, cap).events, larger).events
  {
    hide Apply, Replay, OneTurn, Call;
    ResumeAgreesIff(w, events, cap, larger);
  }

  /** The first thing a loop records is the answer to its first request, if it can be. */
  lemma FirstRecorded(order: Order, w: World, events: seq<Event>, iteration: nat, cap: nat, feedback: Option<string>)
    requires Legal(events) && order == Replay(events).value.order && !Replay(events).value.Terminal()
    requires iteration == Replay(events).value.iteration + 1 <= cap
    ensures var r, answer := Loop(order, w, events, iteration, cap, feedback).events, w.generate(iteration, feedback);
      if Recordable(order, answer) then |r| > |events| && r[|events|] == GenerationEvent(iteration, answer.value) else r == events
  {
    hide Apply, Replay;
    var answer := w.generate(iteration, feedback);
    if Recordable(order, answer) {
      var o := answer.value;
      var generated := events + [GenerationEvent(iteration, o)];
      assert generated[..|events|] == events && generated[|events|] == GenerationEvent(iteration, o);
      NextGenerationLegal(order, events, iteration, o);
      var t := OneTurn(order, w, events, iteration, feedback);
      assert generated <= if t.Over? then t.report.events else t.events;
      TurnKeeps(order, w, events, iteration, feedback);
      if t.Again? { LoopAppends(order, w, t.events, iteration + 1, cap, Some(t.failure)); }
    }
  }

  lemma NextGenerationLegal(order: Order, events: seq<Event>, iteration: nat, o: Outcome)
    requires Legal(events) && order == Replay(events).value.order && !Replay(events).value.Terminal()
    requires iteration == Replay(events).value.iteration + 1 && ValidOutcome(order, o)
    ensures Legal(events + [GenerationEvent(iteration, o)])
  {
    assert (events + [GenerationEvent(iteration, o)])[..|events|] == events;
  }

  // --------------------------------------------------------------- what a call says of itself

  /** A candidate that the order takes: well formed, its lock, and nothing beyond its surface. */
  predicate Taken(order: Order, o: Outcome) {
    o.Candidate? && o.wellFormed && o.lock == order.lock && forall x | x in o.effects + o.surface :: x in order.surface
  }

  /** A turn whose candidate the bench fails. */
  predicate FailedTurn(order: Order, w: World, n: nat, feedback: Option<string>, o: Outcome, failure: string) {
    w.generate(n, feedback) == Ok(o) && Taken(order, o) && w.bench(n, o) == Ok(BenchReport(false, failure))
  }

  /** What the turn after `k` failed ones is told: the failure of the last. */
  function Told(first: Option<string>, failures: seq<string>, k: nat): Option<string>
    requires k <= |failures|
  {
    if k == 0 then first else Some(failures[k - 1])
  }

  /** One failed turn after another, each told how the one before it failed. */
  ghost predicate FailedTurns(order: Order, w: World, start: nat, first: Option<string>, outs: seq<Outcome>, failures: seq<string>) {
    |outs| == |failures| && forall k | 0 <= k < |outs| :: FailedTurn(order, w, start + k, Told(first, failures, k), outs[k], failures[k])
  }

  function Generated(n: nat, o: Outcome): Event
    requires o.Candidate?
  {
    GenerationReturned(n, o.digest, false, o.surface, o.lock)
  }

  /** What failed turns leave in the ledger: each its generation and its failed verdict. */
  function TurnEvents(start: nat, outs: seq<Outcome>): seq<Event>
    requires forall o | o in outs :: o.Candidate?
    decreases |outs|
  {
    if outs == [] then [] else [Generated(start, outs[0]), RungVerdict(start, Bench, false)] + TurnEvents(start + 1, outs[1..])
  }

  /** How turn `n` ends the call, with what it adds to the ledger and to the bench verdicts. */
  predicate LastTurn(order: Order, w: World, n: nat, cap: nat, feedback: Option<string>, ending: Ending, added: seq<Event>, passes: seq<bool>) {
    if n > cap then ending == Exhausted(cap) && added == [] && passes == []
    else match w.generate(n, feedback)
      case Err => ending == Aborted && added == [] && passes == []
      case Ok(o) =>
        if o.Refusal? then ending == Refused(n, o.code) && added == [GenerationReturned(n, o.code, true, [], "")] && passes == []
        else if !Taken(order, o) then ending == InvalidOutcome(n) && added == [] && passes == []
        else match w.bench(n, o)
          case Err => ending == Aborted && added == [Generated(n, o)] && passes == []
          case Ok(b) =>
            if Bench !in order.plan then ending == Aborted && added == [Generated(n, o)] && passes == [b.passed]
            else b.passed && ending == Converged(n) && added == [Generated(n, o), RungVerdict(n, Bench, true)] && passes == [true]
  }

  lemma BenchComesFirst(plan: seq<Rung>)
    requires ValidPlan(plan)
    ensures Position(plan, Bench) == if Bench in plan then Some(0) else None
  {
    PositionIs(plan, Bench);
    var pos := Position(plan, Bench);
    if pos.Some? && pos.value > 0 { PlanIsDistinct(plan, 0, pos.value); }
  }

  /** After a generation just accepted, the bench may be judged exactly if it is planned. */
  lemma BenchMayBeJudged(events: seq<Event>, n: nat, o: Outcome, pass: bool)
    requires Legal(events) && !Replay(events).value.Terminal() && n == Replay(events).value.iteration + 1
    requires Taken(Replay(events).value.order, o)
    ensures ValidOutcome(Replay(events).value.order, o) && GenerationEvent(n, o) == Generated(n, o)
    ensures Legal(events + [Generated(n, o)])
    ensures Legal(events + [Generated(n, o)] + [RungVerdict(n, Bench, pass)]) <==> Bench in Replay(events).value.order.plan
  {
    var st := Replay(events).value;
    NextGenerationLegal(st.order, events, n, o);
    ReplayCounts(events);
    BenchComesFirst(st.order.plan);
    ApplyOne(events, Generated(n, o));
    ApplyOne(events + [Generated(n, o)], RungVerdict(n, Bench, pass));
    hide Replay, Position;
  }

  /** A turn with a candidate the order takes. */
  lemma TakenTurn(w: World, events: seq<Event>, n: nat, feedback: Option<string>, o: Outcome)
    requires Legal(events) && !Replay(events).value.Terminal() && n == Replay(events).value.iteration + 1
    requires w.generate(n, feedback) == Ok(o) && Taken(Replay(events).value.order, o)
    ensures OneTurn(Replay(events).value.order, w, events, n, feedback) == match w.bench(n, o)
      case Err => Over(Report(events + [Generated(n, o)], Aborted, []))
      case Ok(b) =>
        if Bench !in Replay(events).value.order.plan then Over(Report(events + [Generated(n, o)], Aborted, [b.passed]))
        else if b.passed then Over(Report(events + [Generated(n, o), RungVerdict(n, Bench, true)], Converged(n), [true]))
        else Again(events + [Generated(n, o), RungVerdict(n, Bench, false)], b.failure)
  {
    BenchMayBeJudged(events, n, o, true);
    BenchMayBeJudged(events, n, o, false);
    var g := events + [Generated(n, o)];
    assert g + [RungVerdict(n, Bench, false)] == events + [Generated(n, o), RungVerdict(n, Bench, false)];
    assert g + [RungVerdict(n, Bench, true)] == events + [Generated(n, o), RungVerdict(n, Bench, true)];
    hide Replay, ValidOutcome, Taken, GenerationEvent;
  }

  /** A turn with none. */
  lemma OtherTurn(w: World, events: seq<Event>, n: nat, feedback: Option<string>)
    requires Legal(events) && !Replay(events).value.Terminal() && n == Replay(events).value.iteration + 1
    requires var answer := w.generate(n, feedback); answer.Ok? ==> !Taken(Replay(events).value.order, answer.value)
    ensures OneTurn(Replay(events).value.order, w, events, n, feedback) == Over(match w.generate(n, feedback)
      case Err => Report(events, Aborted, [])
      case Ok(o) =>
        if o.Refusal? then Report(events + [GenerationReturned(n, o.code, true, [], "")], Refused(n, o.code), [])
        else Report(events, InvalidOutcome(n), []))
  {
    var order, answer := Replay(events).value.order, w.generate(n, feedback);
    if answer.Ok? {
      if answer.value.Refusal? { NextGenerationLegal(order, events, n, answer.value); }
      assert ValidOutcome(order, answer.value) <==> answer.value.Refusal?;
      hide Replay, ValidOutcome, Taken;
    }
  }

  lemma Tail(a: seq<Event>, b: seq<Event>)
    ensures a <= a + b && (a + b)[|a|..] == b && a <= a && a[|a|..] == []
  {}

  /** One turn, outright. */
  lemma TurnTells(w: World, events: seq<Event>, n: nat, cap: nat, feedback: Option<string>)
    requires Legal(events) && !Replay(events).value.Terminal() && n == Replay(events).value.iteration + 1 <= cap
    ensures var order := Replay(events).value.order;
      match OneTurn(order, w, events, n, feedback)
      case Over(r) =>
        events <= r.events && LastTurn(order, w, n, cap, feedback, r.ending, r.events[|events|..], r.passes)
      case Again(more, failure) =>
        var answer := w.generate(n, feedback);
        && answer.Ok? && answer.value.Candidate? && FailedTurn(order, w, n, feedback, answer.value, failure) && Bench in order.plan
        && more == events + [Generated(n, answer.value), RungVerdict(n, Bench, false)]
  {
    var order, answer := Replay(events).value.order, w.generate(n, feedback);
    if answer.Ok? && Taken(order, answer.value) {
      var o := answer.value;
      TakenTurn(w, events, n, feedback, o);
      Tail(events, [Generated(n, o)]);
      Tail(events, [Generated(n, o), RungVerdict(n, Bench, true)]);
    } else {
      OtherTurn(w, events, n, feedback);
      if answer.Ok? && answer.value.Refusal? { Tail(events, [GenerationReturned(n, answer.value.code, true, [], "")]); }
    }
    hide Replay, OneTurn, Taken;
  }

  /** The same for the loop of a call (`CallTells`). */
  lemma {:induction false} LoopTells(w: World, events: seq<Event>, n: nat, cap: nat, first: Option<string>)
      returns (outs: seq<Outcome>, failures: seq<string>)
    requires Legal(events) && !Replay(events).value.Terminal() && n == Replay(events).value.iteration + 1
    ensures FailedTurns(Replay(events).value.order, w, n, first, outs, failures)
    ensures (forall o | o in outs :: o.Candidate?) && (outs != [] ==> Bench in Replay(events).value.order.plan && n + |outs| <= cap + 1)
    ensures var order := Replay(events).value.order;
      Tells(order, w, n, cap, first, outs, failures, events + TurnEvents(n, outs), Loop(order, w, events, n, cap, first))
    decreases cap + 1 - n
  {
    hide OneTurn, LastTurn, Replay, FailedTurns, TurnEvents, Tells, FailedTurn, Taken, Apply, ValidOutcome;
    outs, failures := [], [];
    var order := Replay(events).value.order;
    if n > cap {
      NothingTold(order, w, n, cap, first, events);
    } else {
      TurnTells(w, events, n, cap, first);
      TurnKeeps(order, w, events, n, first);
      var t := OneTurn(order, w, events, n, first);
      if t.Over? {
        OverTold(order, w, n, cap, first, events, t.report);
      } else {
        var rest, fails := LoopTells(w, t.events, n + 1, cap, Some(t.failure));
        outs, failures := AgainTold(order, w, n, cap, first, events, t.failure, rest, fails, Loop(order, w, t.events, n + 1, cap, Some(t.failure)));
      }
    }
  }

  /** A failed turn before a loop that tells of the rest. */
  lemma AgainTold(order: Order, w: World, n: nat, cap: nat, first: Option<string>, events: seq<Event>, failure: string,
                  rest: seq<Outcome>, fails: seq<string>, r: Report) returns (outs: seq<Outcome>, failures: seq<string>)
    requires var answer := w.generate(n, first);
      answer.Ok? && answer.value.Candidate? && FailedTurn(order, w, n, first, answer.value, failure)
    requires FailedTurns(order, w, n + 1, Some(failure), rest, fails) && forall o | o in rest :: o.Candidate?
    requires Tells(order, w, n + 1, cap, Some(failure), rest, fails,
                   events + [Generated(n, w.generate(n, first).value), RungVerdict(n, Bench, false)] + TurnEvents(n + 1, rest), r)
    ensures FailedTurns(order, w, n, first, outs, failures) && |outs| == |rest| + 1 && forall o | o in outs :: o.Candidate?
    ensures Tells(order, w, n, cap, first, outs, failures, events + TurnEvents(n, outs), Report(r.events, r.ending, [false] + r.passes))
  {
    var o := w.generate(n, first).value;
    assert o.Candidate?;
    outs, failures := [o] + rest, [failure] + fails;
    hide FailedTurn, TurnEvents, Tells;
    OneTurnMore(order, w, n, first, o, failure, rest, fails);
    MoreTurns(events, n, o, rest);
    MoreTold(order, w, n, cap, first, o, failure, rest, fails, events + TurnEvents(n, outs), r);
  }

  /** The call's report: the ledger before its last turn, the failed bench verdicts, and what
      the last turn adds. */
  ghost predicate Tells(order: Order, w: World, n: nat, cap: nat, first: Option<string>, outs: seq<Outcome>, failures: seq<string>,
                        before: seq<Event>, r: Report)
    requires |outs| == |failures|
  {
    && before <= r.events && |outs| <= |r.passes| && (forall k | 0 <= k < |outs| :: !r.passes[k])
    && LastTurn(order, w, n + |outs|, cap, Told(first, failures, |outs|), r.ending, r.events[|before|..], r.passes[|outs|..])
  }

  lemma NothingTold(order: Order, w: World, n: nat, cap: nat, first: Option<string>, events: seq<Event>)
    requires n > cap
    ensures FailedTurns(order, w, n, first, [], [])
    ensures Tells(order, w, n, cap, first, [], [], events + TurnEvents(n, []), Report(events, Exhausted(cap), []))
  {
    assert events + [] == events;
  }

  lemma OverTold(order: Order, w: World, n: nat, cap: nat, first: Option<string>, events: seq<Event>, r: Report)
    requires events <= r.events && LastTurn(order, w, n, cap, first, r.ending, r.events[|events|..], r.passes)
    ensures FailedTurns(order, w, n, first, [], [])
    ensures Tells(order, w, n, cap, first, [], [], events + TurnEvents(n, []), r)
  {
    hide LastTurn;
    assert events + [] == events && r.passes[0..] == r.passes;
  }

  lemma MoreTold(order: Order, w: World, n: nat, cap: nat, first: Option<string>, o: Outcome, failure: string, rest: seq<Outcome>,
                 fails: seq<string>, before: seq<Event>, r: Report)
    requires |rest| == |fails| && Tells(order, w, n + 1, cap, Some(failure), rest, fails, before, r)
    ensures Tells(order, w, n, cap, first, [o] + rest, [failure] + fails, before, Report(r.events, r.ending, [false] + r.passes))
  {
    hide LastTurn;
    assert ([false] + r.passes)[|rest| + 1..] == r.passes[|rest|..];
    assert Told(first, [failure] + fails, |rest| + 1) == Told(Some(failure), fails, |rest|);
  }

  lemma OneTurnMore(order: Order, w: World, n: nat, first: Option<string>, o: Outcome, failure: string, rest: seq<Outcome>, fails: seq<string>)
    requires FailedTurn(order, w, n, first, o, failure) && FailedTurns(order, w, n + 1, Some(failure), rest, fails)
    ensures FailedTurns(order, w, n, first, [o] + rest, [failure] + fails)
    ensures Told(first, [failure] + fails, |rest| + 1) == Told(Some(failure), fails, |rest|)
  {
    hide FailedTurn;
    var outs, failures := [o] + rest, [failure] + fails;
    forall k | 0 <= k < |outs| ensures FailedTurn(order, w, n + k, Told(first, failures, k), outs[k], failures[k]) {
      if k > 0 { assert FailedTurn(order, w, n + 1 + (k - 1), Told(Some(failure), fails, k - 1), rest[k - 1], fails[k - 1]); }
    }
  }

  lemma MoreTurns(events: seq<Event>, n: nat, o: Outcome, rest: seq<Outcome>)
    requires o.Candidate? && forall x | x in rest :: x.Candidate?
    ensures events + [Generated(n, o), RungVerdict(n, Bench, false)] + TurnEvents(n + 1, rest) == events + TurnEvents(n, [o] + rest)
  {
    assert ([o] + rest)[1..] == rest;
  }

  /** MAIN. What a call does, outright: some number of turns failed on the bench, each generated
      from the failure before it and recorded with its failed verdict, and then one turn that
      ended it -- converged exactly on a passed bench, refused on a refusal, invalid on an
      outcome the order does not take, exhausted at the cap -- with nothing else in the ledger.
      An order that plans no bench converges never: its first candidate on the bench aborts. */
  lemma CallTells(w: World, events: seq<Event>, cap: nat) returns (outs: seq<Outcome>, failures: seq<string>)
    ensures !Legal(events) || Ended(events) ==> Call(w, events, cap) == Report(events, Aborted, [])
    ensures Legal(events) && !Ended(events) ==>
      && events[0].Opened? && |outs| == |failures| && (forall o | o in outs :: o.Candidate?)
      && var order, n := events[0].order, Count(events) + 1;
      && FailedTurns(order, w, n, None, outs, failures) && (outs != [] ==> Bench in order.plan && n + |outs| <= cap + 1)
      && Tells(order, w, n, cap, None, outs, failures, events + TurnEvents(n, outs), Call(w, events, cap))
  {
    outs, failures := [], [];
    if Legal(events) {
      ReplayCounts(events);
      ReplayStands(events);
      hide Tells, FailedTurns, TurnEvents, Replay, Count, Ended, Apply;
      if !Ended(events) { outs, failures := LoopTells(w, events, Count(events) + 1, cap, None); }
    }
  }
}
