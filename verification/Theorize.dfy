/** The theorizing batch cursor: observations are consumed as evidence in commit order,
    a batch at a time, and a batch whose consult failed stays to be retried.

    Drafting and judging the theory are left out; of them only whether the provider
    answered at all matters here, since every answered consult disposes of its batch. */
module Theorize {

  /** `obs-NNNN` carries a sequence number; any other id counts as 0. */
  datatype Id = Numbered(n: nat) | Foreign(name: string)

  /** One row of the observation log. `substrate` says its actor is the machine, `speech`
      that it is one of the familiar's own conversational acts, `infra` that it is plumbing;
      `cites` are the ids its context names. */
  datatype Row = Row(id: Id, infra: bool, substrate: bool, speech: bool, cites: set<Id>)

  function Seq(r: Row): nat { match r.id case Numbered(n) => n case Foreign(_) => 0 }

  /** What a theory may be about: neither plumbing nor the machine itself. */
  predicate World(r: Row) { !r.infra && !r.substrate }

  predicate Fresh(r: Row, cursor: nat) { World(r) && Seq(r) > cursor }

  predicate FreshSpeech(r: Row, cursor: nat) { r.speech && Seq(r) > cursor }

  /** A row named by some fresh speech row of the log. */
  predicate Cited(log: seq<Row>, cursor: nat, r: Row) {
    exists j :: 0 <= j < |log| && FreshSpeech(log[j], cursor) && r.id in log[j].cites
  }

  /** A row past the window that rejoins because fresh speech cites it. */
  predicate Rejoins(log: seq<Row>, cursor: nat, r: Row) {
    World(r) && Seq(r) <= cursor && Cited(log, cursor, r)
  }

  /** The watermark after a batch: the highest number among its evidence and its speech. */
  function MaxSeen(log: seq<Row>, cursor: nat): (m: nat)
    ensures cursor <= m
    ensures forall i | 0 <= i < |log| && (Fresh(log[i], cursor) || FreshSpeech(log[i], cursor)) :: Seq(log[i]) <= m
    ensures m == cursor || exists i :: 0 <= i < |log| && (Fresh(log[i], cursor) || FreshSpeech(log[i], cursor)) && Seq(log[i]) == m
  {
    if log == [] then cursor
    else
      var r := log[|log| - 1];
      var m := MaxSeen(log[..|log| - 1], cursor);
      if (Fresh(r, cursor) || FreshSpeech(r, cursor)) && Seq(r) > m then Seq(r) else m
  }

  /** The evidence of one disposed batch, as row numbers of the log. */
  datatype Batch = Batch(window: set<nat>, rejoined: set<nat>)

  function BatchOf(log: seq<Row>, cursor: nat): Batch {
    Batch(set i | 0 <= i < |log| && Fresh(log[i], cursor), set i | 0 <= i < |log| && Rejoins(log, cursor, log[i]))
  }

  // ------------------------------------------------------------------------------ runs

  datatype Reply = Answered | ProviderFailed

  /** `log` is the whole record, `seen` how much of it the last tick had loaded. */
  datatype State = State(log: seq<Row>, seen: nat, cursor: nat, disposed: seq<Batch>)

  /** A row is recorded, by this process or another; or a tick that had loaded the first
      `view` rows theorizes over them. `due` is the cadence and the gate, `loops` whether
      some recurring loop is not plumbing. */
  datatype Step = Record(row: Row) | Consult(view: nat, due: bool, loops: bool, reply: Reply)

  predicate AnyEvidence(log: seq<Row>, cursor: nat) {
    exists i :: 0 <= i < |log| && (Fresh(log[i], cursor) || Rejoins(log, cursor, log[i]))
  }

  predicate AnyWorld(log: seq<Row>) { exists i :: 0 <= i < |log| && World(log[i]) }

  /** Recorded ids are the table's high-water mark plus one; a row keeps a given foreign id. */
  predicate Enabled(s: State, step: Step) {
    match step
    case Record(row) => row.id.Numbered? ==> forall i | 0 <= i < |s.log| :: Seq(s.log[i]) < row.id.n
    case Consult(view, _, _, _) => s.seen <= view <= |s.log|
  }

  predicate Disposes(s: State, step: Step)
    requires step.Consult? && Enabled(s, step)
  {
    var log := s.log[..step.view];
    step.due && AnyWorld(log) && (AnyEvidence(log, s.cursor) || step.loops) && step.reply.Answered?
  }

  function Next(s: State, step: Step): State
    requires Enabled(s, step)
  {
    match step
    case Record(row) => s.(log := s.log + [row])
    case Consult(view, _, _, _) =>
      var log := s.log[..view];
      if Disposes(s, step) then State(s.log, view, MaxSeen(log, s.cursor), s.disposed + [BatchOf(log, s.cursor)])
      else s.(seen := view)
  }

  ghost predicate Possible(s: State, steps: seq<Step>)
    decreases |steps|
  {
    steps == [] || (Enabled(s, steps[0]) && Possible(Next(s, steps[0]), steps[1..]))
  }

  function Run(s: State, steps: seq<Step>): State
    requires Possible(s, steps)
    decreases |steps|
  {
    if steps == [] then s else Run(Next(s, steps[0]), steps[1..])
  }

  // ------------------------------------------------------------------------ invariants

  /** Numbers grow along the log, and the cursor never passes what a tick has seen. */
  ghost predicate CommitOrder(s: State) {
    && s.seen <= |s.log|
    && (forall i, j | 0 <= i < j < |s.log| && s.log[j].id.Numbered? :: Seq(s.log[i]) < Seq(s.log[j]))
    && (s.cursor == 0 || exists i :: 0 <= i < s.seen && Seq(s.log[i]) == s.cursor)
  }

  /** Row `i` is fresh evidence in batch `k` and in no other. */
  ghost predicate OnlyIn(disposed: seq<Batch>, i: nat, k: nat) {
    0 <= k < |disposed| && i in disposed[k].window && forall l | 0 <= l < |disposed| && l != k :: i !in disposed[l].window
  }

  ghost predicate InNone(disposed: seq<Batch>, i: nat) { forall l | 0 <= l < |disposed| :: i !in disposed[l].window }

  /** Every numbered world row at or below the cursor was used exactly once as fresh
      evidence; no other row ever was. */
  ghost predicate ExactlyOnce(s: State) { forall i | 0 <= i < |s.log| :: Accounted(s, i) }

  ghost predicate Accounted(s: State, i: nat)
    requires i < |s.log|
  {
    if World(s.log[i]) && 0 < Seq(s.log[i]) <= s.cursor then exists k :: OnlyIn(s.disposed, i, k)
    else InNone(s.disposed, i)
  }

  /** Only rows of the world, never the machine's own, are evidence. */
  predicate Evidence(log: seq<Row>, i: nat) { i < |log| && World(log[i]) }

  ghost predicate InLog(s: State) {
    && (forall k, i | 0 <= k < |s.disposed| && i in s.disposed[k].window :: Evidence(s.log, i))
    && (forall k, i | 0 <= k < |s.disposed| && i in s.disposed[k].rejoined :: Evidence(s.log, i))
  }

  ghost predicate Inv(s: State) { CommitOrder(s) && ExactlyOnce(s) && InLog(s) }

  lemma RecordKeepsInv(s: State, row: Row)
    requires Inv(s) && Enabled(s, Record(row))
    ensures Inv(Next(s, Record(row)))
  {
    var t := Next(s, Record(row));
    if s.cursor != 0 {
      var j :| 0 <= j < s.seen && Seq(s.log[j]) == s.cursor;
      assert t.log[j] == s.log[j];
    }
    forall i | 0 <= i < |t.log| ensures Accounted(t, i) {
      if i == |s.log| {
        forall l | 0 <= l < |s.disposed| ensures i !in s.disposed[l].window {
          assert !Evidence(s.log, i);
        }
      } else {
        assert t.log[i] == s.log[i] && Accounted(s, i);
      }
    }
    forall k, i | 0 <= k < |t.disposed| && (i in t.disposed[k].window || i in t.disposed[k].rejoined)
      ensures Evidence(t.log, i)
    {
      assert Evidence(s.log, i);
    }
  }

  /** A fresh row of the snapshot ends at or below the new cursor; a row at or below it and
      above the old one was in the snapshot, and fresh. */
  lemma WindowIsFresh(s: State, view: nat, i: nat)
    requires CommitOrder(s) && s.seen <= view <= |s.log| && i < |s.log|
    ensures var m := MaxSeen(s.log[..view], s.cursor);
      (World(s.log[i]) && s.cursor < Seq(s.log[i]) <= m) <==> i in BatchOf(s.log[..view], s.cursor).window
  {
    var log := s.log[..view];
    var m := MaxSeen(log, s.cursor);
    if i < view {
      assert log[i] == s.log[i];
    } else if m > s.cursor {
      var j :| 0 <= j < |log| && Seq(log[j]) == m;
      assert log[j] == s.log[j] && j < i;
    }
  }

  lemma ConsultAccounts(s: State, step: Step, i: nat)
    requires Inv(s) && step.Consult? && Enabled(s, step) && Disposes(s, step) && i < |s.log|
    ensures Accounted(Next(s, step), i)
  {
    var t := Next(s, step);
    WindowIsFresh(s, step.view, i);
    assert Accounted(s, i);
    if World(s.log[i]) && 0 < Seq(s.log[i]) <= s.cursor {
      var k :| OnlyIn(s.disposed, i, k);
      assert OnlyIn(t.disposed, i, k);
    } else if i in t.disposed[|s.disposed|].window {
      assert OnlyIn(t.disposed, i, |s.disposed|);
    }
  }

  lemma ConsultKeepsInv(s: State, step: Step)
    requires Inv(s) && step.Consult? && Enabled(s, step)
    ensures Inv(Next(s, step))
  {
    var t := Next(s, step);
    if Disposes(s, step) {
      var log := s.log[..step.view];
      if t.cursor != s.cursor {
        var j :| 0 <= j < |log| && Seq(log[j]) == t.cursor;
        assert s.log[j] == log[j];
      }
      forall i | 0 <= i < |t.log| ensures Accounted(t, i) { ConsultAccounts(s, step, i); }
      assert forall i | 0 <= i < |log| :: log[i] == s.log[i];
    } else {
      forall i | 0 <= i < |t.log| ensures Accounted(t, i) { assert Accounted(s, i); }
    }
  }

  lemma {:induction false} RunKeepsInv(s: State, steps: seq<Step>)
    requires Inv(s) && Possible(s, steps)
    ensures Inv(Run(s, steps)) && s.cursor <= Run(s, steps).cursor
    decreases |steps|
  {
    if steps != [] {
      match steps[0] {
        case Record(row) => RecordKeepsInv(s, row);
        case Consult(_, _, _, _) => ConsultKeepsInv(s, steps[0]);
      }
      RunKeepsInv(Next(s, steps[0]), steps[1..]);
    }
  }

  const START := State([], 0, 0, [])

  /** MAIN. Over any mix of recordings, quiet ticks, provider failures and disposed batches:
      every numbered world observation at or below the cursor was fresh evidence in exactly
      one disposed batch, none above it in any; and no batch holds the machine's own rows. */
  lemma EvidenceExactlyOnce(steps: seq<Step>)
    requires Possible(START, steps)
    ensures ExactlyOnce(Run(START, steps)) && InLog(Run(START, steps))
  {
    RunKeepsInv(START, steps);
  }

  /** An older row of the world that speech past the cursor names. */
  predicate Recalled(log: seq<Row>, cursor: nat, r: Row) {
    && !r.infra && !r.substrate && Seq(r) <= cursor
    && exists j :: 0 <= j < |log| && log[j].speech && Seq(log[j]) > cursor && r.id in log[j].cites
  }

  /** Something to theorize about: a row of the world in view, and among the rows one that is
      new or recalled, unless some loop recurs. */
  predicate Material(log: seq<Row>, cursor: nat, loops: bool) {
    && (exists k :: 0 <= k < |log| && !log[k].infra && !log[k].substrate)
    && (loops || exists k :: 0 <= k < |log| && !log[k].infra && !log[k].substrate
                             && (Seq(log[k]) > cursor || Recalled(log, cursor, log[k])))
  }

  /** What one consult does, outright. When it is due, finds material and is answered, it takes
      as evidence exactly the world rows in view that are numbered past the cursor, and with
      them exactly the older ones recalled; otherwise nothing moves. */
  lemma ConsultDoes(s: State, step: Step, i: nat)
    requires step.Consult? && Enabled(s, step)
    ensures var t, n, log := Next(s, step), |s.disposed|, s.log[..step.view];
      if step.due && step.reply.Answered? && Material(log, s.cursor, step.loops) then
        && |t.disposed| == n + 1 && t.disposed[..n] == s.disposed && t.log == s.log && t.seen == step.view
        && (i in t.disposed[n].window <==> i < step.view && !s.log[i].infra && !s.log[i].substrate && Seq(s.log[i]) > s.cursor)
        && (i in t.disposed[n].rejoined <==> i < step.view && Recalled(log, s.cursor, s.log[i]))
      else t == s.(seen := step.view)
  {
    var log := s.log[..step.view];
    hide MaxSeen;
    assert i < step.view ==> log[i] == s.log[i];
    forall k | 0 <= k < |log| ensures Rejoins(log, s.cursor, log[k]) <==> Recalled(log, s.cursor, log[k]) {}
    hide Rejoins, Recalled;
  }

  lemma MaterialIs(log: seq<Row>, cursor: nat, loops: bool)
    ensures Material(log, cursor, loops) <==> AnyWorld(log) && (AnyEvidence(log, cursor) || loops)
  {
    forall k | 0 <= k < |log| ensures Rejoins(log, cursor, log[k]) <==> Recalled(log, cursor, log[k]) {}
    hide Rejoins, Recalled;
  }

  /** Evidence of the world or the familiar's own speech. */
  predicate Heard(r: Row) { r.speech || (!r.infra && !r.substrate) }

  /** The cursor moves to the last number among the evidence and speech it had not passed. */
  lemma CursorMoves(s: State, step: Step)
    requires step.Consult? && Enabled(s, step) && step.due && step.reply.Answered?
    requires Material(s.log[..step.view], s.cursor, step.loops)
    ensures var c, log := Next(s, step).cursor, s.log[..step.view];
      && s.cursor <= c && (forall k | 0 <= k < |log| && Heard(log[k]) :: Seq(log[k]) <= c)
      && (c == s.cursor || exists k :: 0 <= k < |log| && Heard(log[k]) && Seq(log[k]) == c)
  {
    ConsultDoes(s, step, 0);
    assert Disposes(s, step);
    var log, c := s.log[..step.view], MaxSeen(s.log[..step.view], s.cursor);
    if c != s.cursor {
      var k :| 0 <= k < |log| && (Fresh(log[k], s.cursor) || FreshSpeech(log[k], s.cursor)) && Seq(log[k]) == c;
      assert Heard(log[k]);
    }
  }

  /** The cursor never regresses, and a failed consult leaves its whole batch for the
      next one. */
  lemma CursorNeverRegresses(first: seq<Step>, later: seq<Step>)
    requires Possible(START, first) && Possible(Run(START, first), later)
    ensures Run(START, first).cursor <= Run(Run(START, first), later).cursor
  {
    RunKeepsInv(START, first);
    RunKeepsInv(Run(START, first), later);
  }

  lemma FailureKeepsBatch(s: State, step: Step, again: Step)
    requires step.Consult? && step.reply.ProviderFailed? && Enabled(s, step)
    requires again.Consult? && Enabled(Next(s, step), again)
    ensures Next(s, step).cursor == s.cursor && Next(s, step).disposed == s.disposed
    ensures BatchOf(s.log[..step.view], s.cursor).window <= BatchOf(s.log[..again.view], s.cursor).window
  {
    var a, b := s.log[..step.view], s.log[..again.view];
    assert forall i | 0 <= i < |a| :: a[i] == b[i];
  }

  /** Old rows come back only through a cite, and a chain of the familiar's own speech yields
      nothing: in any run, what rejoins a batch is a world row that fresh speech names, that is
      not fresh in it, and that (if numbered) was fresh evidence in exactly one batch before. */
  lemma RejoinOnlyThroughCites(steps: seq<Step>, step: Step, i: nat)
    requires Possible(START, steps) && step.Consult? && Enabled(Run(START, steps), step) && Disposes(Run(START, steps), step)
    requires var s := Run(START, steps); i in Next(s, step).disposed[|s.disposed|].rejoined
    ensures i < |Run(START, steps).log|
    ensures var s := Run(START, steps);
      World(s.log[i]) && i !in Next(s, step).disposed[|s.disposed|].window
      && Cited(s.log[..step.view], s.cursor, s.log[i])
      && (s.log[i].id.Numbered? && s.log[i].id.n > 0 ==> exists k :: OnlyIn(s.disposed, i, k))
  {
    RunKeepsInv(START, steps);
    var s := Run(START, steps);
    assert s.log[..step.view][i] == s.log[i] && Accounted(s, i);
  }

  // -------------------------------------------------------------------- maybe_theorize

  class Theorizer {
    var cursor: nat
    /** What each disposed batch was, for the record. */
    ghost var disposed: seq<Batch>

    constructor ()
      ensures cursor == 0 && disposed == []
    {
      cursor, disposed := 0, [];
    }

    /** The cursor part of one call, over the rows loaded at the start of the tick. */
    method MaybeTheorize(log: seq<Row>, due: bool, loops: bool, reply: Reply) returns (consumed: bool)
      modifies this
      ensures var s, step := State(log, 0, old(cursor), old(disposed)), Consult(|log|, due, loops, reply);
        cursor == Next(s, step).cursor && disposed == Next(s, step).disposed
      ensures consumed <==> due && reply.Answered? && Material(log, old(cursor), loops)
      ensures !consumed ==> cursor == old(cursor) && disposed == old(disposed)
    {
      assert log[..|log|] == log;
      MaterialIs(log, cursor, loops);
      if !due { return false; }
      if !AnyWorld(log) { return false; }
      if !AnyEvidence(log, cursor) && !loops { return false; }
      var maxSeen := MaxSeen(log, cursor);
      if reply == ProviderFailed { return false; }
      disposed := disposed + [BatchOf(log, cursor)];
      cursor := maxSeen;
      consumed := true;
    }
  }
}
