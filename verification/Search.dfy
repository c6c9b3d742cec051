/** The self-improvement search: every `generated` candidate is judged once, and a verdict
    of `mutate` breeds at most one child, down to a generation cap.

    The selection rule, the script review and the regression guard are arbitrary inputs
    here; what is proved holds whatever they say. */
module Search {

  const MAX_MUTATION_GENERATION: nat := 6

  datatype Status = Generated | Promoted | Archived | Mutated | Observing

  /** Ids are the numbers of `candidate-NNNN`; `parent` 0 is the empty parent id. */
  datatype Candidate = Candidate(id: nat, parent: nat, loop: string, generation: nat, status: Status)

  /** `Decline` is the pre-execution review; the rest are the selection decisions, with the
      regression guard's answer beside `Mutate`. */
  datatype Verdict = Decline | Promote | Archive | Reject | Mutate(regression: bool) | ObserveMore | Hold

  /** The candidate table and the ids judged so far (trial rows and recorded refusals). */
  datatype Store = Store(cands: seq<Candidate>, judged: seq<nat>)

  /** `candidate::update_status`: every row with this id. */
  function UpdateStatus(cands: seq<Candidate>, id: nat, status: Status): seq<Candidate> {
    seq(|cands|, i requires 0 <= i < |cands| =>
      if cands[i].id == id then cands[i].(status := status) else cands[i])
  }

  function FromLoop(cands: seq<Candidate>, loop: string): Candidate {
    Candidate(|cands| + 1, 0, loop, 0, Generated)
  }

  /** `mutation::create`, through the genotype: next generation, clean somatic state. */
  function Child(cands: seq<Candidate>, c: Candidate): Candidate {
    Candidate(|cands| + 1, c.id, c.loop, c.generation + 1, Generated)
  }

  function StatusAfter(c: Candidate, v: Verdict): Status {
    match v
    case Decline => Archived
    case Promote => Promoted
    case Archive => Archived
    case Reject => Archived
    case Mutate(_) => if c.generation >= MAX_MUTATION_GENERATION then Archived else Mutated
    case ObserveMore => Observing
    case Hold => Observing
  }

  predicate Breeds(c: Candidate, v: Verdict) {
    v.Mutate? && c.generation < MAX_MUTATION_GENERATION && !v.regression
  }

  function Judge(s: Store, c: Candidate, v: Verdict): Store {
    var bred := s.cands + if Breeds(c, v) then [Child(s.cands, c)] else [];
    Store(UpdateStatus(bred, c.id, StatusAfter(c, v)), s.judged + [c.id])
  }

  function Pending(cands: seq<Candidate>): seq<Candidate> {
    if cands == [] then [] else (if cands[0].status == Generated then [cands[0]] else []) + Pending(cands[1..])
  }

  function JudgeAll(s: Store, batch: seq<Candidate>, vs: seq<Verdict>): Store
    decreases |batch|
  {
    if batch == [] || vs == [] then s else JudgeAll(Judge(s, batch[0], vs[0]), batch[1..], vs[1..])
  }

  // ------------------------------------------------------------------------ invariants

  /** A root has generation 0; a child follows a judged parent of its own lineage. */
  predicate LawfulRow(cands: seq<Candidate>, i: nat)
    requires i < |cands|
  {
    var c := cands[i];
    && c.id == i + 1
    && c.generation <= MAX_MUTATION_GENERATION
    && if c.parent == 0 then c.generation == 0
       else
         && c.parent <= i
         && cands[c.parent - 1].status != Generated
         && cands[c.parent - 1].loop == c.loop
         && c.generation == cands[c.parent - 1].generation + 1
  }

  ghost predicate LawfulRows(cands: seq<Candidate>) { forall i | 0 <= i < |cands| :: LawfulRow(cands, i) }

  ghost predicate OneChildEach(cands: seq<Candidate>) {
    forall i, j | 0 <= i < j < |cands| && cands[i].parent == cands[j].parent :: cands[i].parent == 0
  }

  predicate Settled(cands: seq<Candidate>, id: nat) { 0 < id <= |cands| && cands[id - 1].status != Generated }

  ghost predicate JudgedOnce(s: Store) {
    && (forall k | 0 <= k < |s.judged| :: Settled(s.cands, s.judged[k]))
    && (forall k, l | 0 <= k < l < |s.judged| :: s.judged[k] != s.judged[l])
  }

  /** What every reachable table looks like. */
  ghost predicate Lawful(s: Store) { LawfulRows(s.cands) && OneChildEach(s.cands) && JudgedOnce(s) }

  /** A row that still awaits judgement. */
  predicate Awaits(cands: seq<Candidate>, c: Candidate) {
    0 < c.id <= |cands| && cands[c.id - 1] == c && c.status == Generated
  }

  ghost predicate Waiting(cands: seq<Candidate>, batch: seq<Candidate>) {
    && (forall k | 0 <= k < |batch| :: Awaits(cands, batch[k]))
    && (forall k, l | 0 <= k < l < |batch| :: batch[k].id != batch[l].id)
  }

  ghost predicate InFlight(s: Store, batch: seq<Candidate>) { Lawful(s) && Waiting(s.cands, batch) }

  lemma JudgeRow(s: Store, c: Candidate, v: Verdict)
    requires LawfulRows(s.cands) && Awaits(s.cands, c)
    ensures Judge(s, c, v).cands == s.cands[c.id - 1 := c.(status := StatusAfter(c, v))]
                                    + if Breeds(c, v) then [Child(s.cands, c)] else []
  {
    forall i | 0 <= i < |s.cands| ensures s.cands[i].id == i + 1 { assert LawfulRow(s.cands, i); }
  }

  lemma JudgeKeepsRows(s: Store, c: Candidate, v: Verdict)
    requires LawfulRows(s.cands) && Awaits(s.cands, c)
    ensures LawfulRows(Judge(s, c, v).cands)
  {
    JudgeRow(s, c, v);
    var t := Judge(s, c, v).cands;
    assert LawfulRow(s.cands, c.id - 1);
    forall i | 0 <= i < |t| ensures LawfulRow(t, i) {
      if i < |s.cands| { assert LawfulRow(s.cands, i); }
    }
  }

  lemma JudgeKeepsOneChild(s: Store, c: Candidate, v: Verdict)
    requires LawfulRows(s.cands) && Awaits(s.cands, c) && OneChildEach(s.cands)
    ensures OneChildEach(Judge(s, c, v).cands)
  {
    JudgeRow(s, c, v);
    var t := Judge(s, c, v).cands;
    forall i, j | 0 <= i < j < |t| && t[i].parent == t[j].parent ensures t[i].parent == 0 {
      assert LawfulRow(s.cands, i);
      assert t[i].parent == s.cands[i].parent;
      assert j < |s.cands| ==> t[j].parent == s.cands[j].parent;
    }
  }

  lemma JudgeKeepsJudgedOnce(s: Store, c: Candidate, v: Verdict)
    requires LawfulRows(s.cands) && Awaits(s.cands, c) && JudgedOnce(s)
    ensures JudgedOnce(Judge(s, c, v))
  {
    JudgeRow(s, c, v);
    var t := Judge(s, c, v);
    forall k | 0 <= k < |t.judged| ensures Settled(t.cands, t.judged[k]) {
      assert k < |s.judged| ==> Settled(s.cands, s.judged[k]);
    }
  }

  lemma JudgeKeepsWaiting(s: Store, c: Candidate, v: Verdict, rest: seq<Candidate>)
    requires LawfulRows(s.cands) && Waiting(s.cands, [c] + rest)
    ensures Awaits(s.cands, c) && Waiting(Judge(s, c, v).cands, rest)
  {
    var batch := [c] + rest;
    assert batch[0] == c;
    JudgeRow(s, c, v);
    forall k | 0 <= k < |rest| ensures Awaits(Judge(s, c, v).cands, rest[k]) {
      assert batch[k + 1] == rest[k] && batch[0].id != batch[k + 1].id;
    }
    forall k, l | 0 <= k < l < |rest| ensures rest[k].id != rest[l].id {
      assert batch[k + 1].id != batch[l + 1].id;
    }
  }

  lemma JudgeKeepsLawful(s: Store, c: Candidate, v: Verdict)
    requires Lawful(s) && Awaits(s.cands, c)
    ensures Lawful(Judge(s, c, v))
  {
    JudgeKeepsRows(s, c, v);
    JudgeKeepsOneChild(s, c, v);
    JudgeKeepsJudgedOnce(s, c, v);
  }

  lemma {:induction false} PendingFrom(cands: seq<Candidate>, from: nat)
    requires from <= |cands| && LawfulRows(cands)
    ensures Waiting(cands, Pending(cands[from..]))
    ensures forall k, l | 0 <= k < l < |Pending(cands[from..])| :: Pending(cands[from..])[k].id < Pending(cands[from..])[l].id
    ensures forall k | 0 <= k < |Pending(cands[from..])| :: Pending(cands[from..])[k].id > from
    decreases |cands| - from
  {
    if from < |cands| {
      assert cands[from..][1..] == cands[from + 1..] && cands[from..][0] == cands[from];
      assert LawfulRow(cands, from);
      PendingFrom(cands, from + 1);
      var rest := Pending(cands[from + 1..]);
      if cands[from].status == Generated {
        var p := Pending(cands[from..]);
        assert p == [cands[from]] + rest;
        forall k | 0 <= k < |p| ensures Awaits(cands, p[k]) && p[k].id > from {
          assert k > 0 ==> p[k] == rest[k - 1];
        }
        forall k, l | 0 <= k < l < |p| ensures p[k].id < p[l].id {
          assert p[l] == rest[l - 1] && (k > 0 ==> p[k] == rest[k - 1]);
        }
      }
    }
  }

  lemma PendingWaits(cands: seq<Candidate>)
    requires LawfulRows(cands)
    ensures Waiting(cands, Pending(cands))
    ensures forall k, l | 0 <= k < l < |Pending(cands)| :: Pending(cands)[k].id < Pending(cands)[l].id
  {
    PendingFrom(cands, 0);
    assert cands[0..] == cands;
  }

  // ------------------------------------------------------------------- sums over the table

  function Sum(f: Candidate -> nat, cands: seq<Candidate>): nat {
    if cands == [] then 0 else f(cands[|cands| - 1]) + Sum(f, cands[..|cands| - 1])
  }

  lemma SumAppend(f: Candidate -> nat, cands: seq<Candidate>, c: Candidate)
    ensures Sum(f, cands + [c]) == Sum(f, cands) + f(c)
  {
    assert (cands + [c])[..|cands|] == cands;
  }

  lemma {:induction false} SumUpdate(f: Candidate -> nat, cands: seq<Candidate>, i: nat, c: Candidate)
    requires i < |cands|
    ensures Sum(f, cands[i := c]) + f(cands[i]) == Sum(f, cands) + f(c)
  {
    var n := |cands| - 1;
    if i < n {
      SumUpdate(f, cands[..n], i, c);
      assert cands[i := c][..n] == cands[..n][i := c];
    } else {
      assert cands[i := c][..n] == cands[..n];
    }
  }

  /** Trials a row may still cost, its own and its descendants'. */
  function Owed(c: Candidate): nat {
    if c.status == Generated && c.generation <= MAX_MUTATION_GENERATION then MAX_MUTATION_GENERATION + 1 - c.generation else 0
  }

  /** A row's share of the population: itself when settled, else all it may still become. */
  function Weight(c: Candidate): nat {
    if c.status == Generated && c.generation <= MAX_MUTATION_GENERATION then MAX_MUTATION_GENERATION + 1 - c.generation else 1
  }

  function IsRoot(c: Candidate): nat { if c.generation == 0 then 1 else 0 }

  function Debt(cands: seq<Candidate>): nat { Sum(Owed, cands) }

  function Roots(cands: seq<Candidate>): nat { Sum(IsRoot, cands) }

  /** One judgement pays at least one unit of debt and never adds weight. */
  lemma JudgePays(s: Store, c: Candidate, v: Verdict)
    requires LawfulRows(s.cands) && Awaits(s.cands, c)
    ensures Debt(Judge(s, c, v).cands) < Debt(s.cands)
    ensures Sum(Weight, Judge(s, c, v).cands) <= Sum(Weight, s.cands)
    ensures Roots(Judge(s, c, v).cands) == Roots(s.cands)
  {
    hide Sum, Judge;
    JudgeRow(s, c, v);
    assert LawfulRow(s.cands, c.id - 1);
    var done := c.(status := StatusAfter(c, v));
    var row := s.cands[c.id - 1 := done];
    SumUpdate(Owed, s.cands, c.id - 1, done);
    SumUpdate(Weight, s.cands, c.id - 1, done);
    SumUpdate(IsRoot, s.cands, c.id - 1, done);
    if Breeds(c, v) {
      var child := Child(s.cands, c);
      SumAppend(Owed, row, child);
      SumAppend(Weight, row, child);
      SumAppend(IsRoot, row, child);
    } else {
      assert row + [] == row;
    }
  }

  function IsPromoted(c: Candidate): nat { if c.status == Promoted then 1 else 0 }

  function IsMutated(c: Candidate): nat { if c.status == Mutated then 1 else 0 }

  function IsArchived(c: Candidate): nat { if c.status == Archived then 1 else 0 }

  /** One judgement moves one row into the status its verdict calls for, and no other. */
  lemma JudgeCounts(s: Store, c: Candidate, v: Verdict)
    requires LawfulRows(s.cands) && Awaits(s.cands, c)
    ensures var t := Judge(s, c, v).cands;
      && Sum(IsPromoted, t) == Sum(IsPromoted, s.cands) + (if v.Promote? then 1 else 0)
      && Sum(IsMutated, t) == Sum(IsMutated, s.cands) + (if v.Mutate? && c.generation < 6 then 1 else 0)
      && Sum(IsArchived, t) == Sum(IsArchived, s.cands)
                               + (if v.Decline? || v.Archive? || v.Reject? || (v.Mutate? && c.generation >= 6) then 1 else 0)
  {
    hide Sum, Judge;
    JudgeRow(s, c, v);
    var done := c.(status := StatusAfter(c, v));
    var row := s.cands[c.id - 1 := done];
    SumUpdate(IsPromoted, s.cands, c.id - 1, done);
    SumUpdate(IsMutated, s.cands, c.id - 1, done);
    SumUpdate(IsArchived, s.cands, c.id - 1, done);
    if Breeds(c, v) {
      var child := Child(s.cands, c);
      SumAppend(IsPromoted, row, child);
      SumAppend(IsMutated, row, child);
      SumAppend(IsArchived, row, child);
    } else {
      assert row + [] == row;
    }
  }

  lemma {:induction false} JudgeAllKeeps(s: Store, batch: seq<Candidate>, vs: seq<Verdict>)
    requires Lawful(s) && Waiting(s.cands, batch)
    ensures Lawful(JudgeAll(s, batch, vs))
    ensures batch != [] && vs != [] ==> Debt(JudgeAll(s, batch, vs).cands) < Debt(s.cands)
    ensures Debt(JudgeAll(s, batch, vs).cands) <= Debt(s.cands)
    ensures Sum(Weight, JudgeAll(s, batch, vs).cands) <= Sum(Weight, s.cands)
    ensures Roots(JudgeAll(s, batch, vs).cands) == Roots(s.cands)
    decreases |batch|
  {
    if batch != [] && vs != [] {
      assert batch == [batch[0]] + batch[1..];
      JudgeKeepsWaiting(s, batch[0], vs[0], batch[1..]);
      JudgeKeepsLawful(s, batch[0], vs[0]);
      JudgePays(s, batch[0], vs[0]);
      JudgeAllKeeps(Judge(s, batch[0], vs[0]), batch[1..], vs[1..]);
    }
  }

  /** One turn of the loop over the snapshot. */
  lemma OneMore(s: Store, batch: seq<Candidate>, vs: seq<Verdict>)
    requires batch != [] && vs != [] && InFlight(s, batch)
    ensures InFlight(Judge(s, batch[0], vs[0]), batch[1..])
  {
    assert batch == [batch[0]] + batch[1..];
    JudgeKeepsWaiting(s, batch[0], vs[0], batch[1..]);
    JudgeKeepsLawful(s, batch[0], vs[0]);
  }

  lemma {:induction false} SumAtLeastLength(cands: seq<Candidate>)
    ensures |cands| <= Sum(Weight, cands)
  {
    if cands != [] { SumAtLeastLength(cands[..|cands| - 1]); }
  }

  lemma {:induction false} DebtFree(cands: seq<Candidate>)
    requires Debt(cands) == 0
    ensures forall i | 0 <= i < |cands| :: Owed(cands[i]) == 0
  {
    if cands != [] { DebtFree(cands[..|cands| - 1]); }
  }

  // ------------------------------------------------------------ what a tick does, outright

  /** What each verdict makes of a candidate of this generation. */
  predicate Fits(v: Verdict, generation: nat, status: Status) {
    && (status == Promoted <==> v.Promote?)
    && (status == Archived <==> v.Decline? || v.Archive? || v.Reject? || (v.Mutate? && generation >= 6))
    && (status == Mutated <==> v.Mutate? && generation < 6)
    && (status == Observing <==> v.ObserveMore? || v.Hold?)
  }

  /** The candidates among the first judged that have a child: a mutation below the cap that
      the regression guard lets through. */
  function Parents(batch: seq<Candidate>, vs: seq<Verdict>): seq<Candidate>
    decreases |batch|
  {
    if batch == [] || vs == [] then []
    else (if vs[0] == Mutate(false) && batch[0].generation < 6 then [batch[0]] else []) + Parents(batch[1..], vs[1..])
  }

  function Least(a: nat, b: nat): nat { if a < b then a else b }

  /** The row of this candidate now has the status the verdict calls for. */
  predicate Settles(after: seq<Candidate>, c: Candidate, v: Verdict) {
    && 0 < c.id <= |after| && after[c.id - 1] == c.(status := after[c.id - 1].status)
    && Fits(v, c.generation, after[c.id - 1].status)
  }

  ghost predicate Among(batch: seq<Candidate>, n: nat, id: nat) { exists k :: 0 <= k < n && k < |batch| && batch[k].id == id }

  /** The table before and after as many of a batch were judged as there are verdicts. */
  ghost predicate Judged(before: seq<Candidate>, after: seq<Candidate>, batch: seq<Candidate>, vs: seq<Verdict>) {
    && |before| <= |after|
    && (forall k | 0 <= k < |batch| && k < |vs| :: Settles(after, batch[k], vs[k]))
    && (forall i | 0 <= i < |before| && !Among(batch, |vs|, i + 1) :: after[i] == before[i])
  }

  /** The rows past `before` are the children of these parents, in order. */
  ghost predicate Bred(before: nat, after: seq<Candidate>, parents: seq<Candidate>) {
    && |after| == before + |parents|
    && forall i | before <= i < |after| :: ChildOf(after[i], i + 1, parents[i - before])
  }

  predicate ChildOf(child: Candidate, id: nat, parent: Candidate) {
    child == Candidate(id, parent.id, parent.loop, parent.generation + 1, Generated)
  }

  /** The judging of a snapshot: the candidates within the work limit get the status their
      verdict calls for, one child is appended for each parent in order, nothing else changes,
      and each is judged once. */
  lemma {:induction false} JudgeAllDoes(s: Store, batch: seq<Candidate>, vs: seq<Verdict>)
    requires Lawful(s) && Waiting(s.cands, batch)
    ensures var t := JudgeAll(s, batch, vs);
      && Judged(s.cands, t.cands, batch, vs) && Bred(|s.cands|, t.cands, Parents(batch, vs))
      && t.judged == s.judged + IdsOf(batch, |vs|)
    decreases |batch|
  {
    hide Judged, Bred, Judge, Fits, OneChildEach, JudgedOnce, LawfulRow, Awaits;
    if batch == [] || vs == [] {
      NoneJudged(s.cands, batch, vs);
    } else {
      var c, rest, mid := batch[0], batch[1..], Judge(s, batch[0], vs[0]);
      assert batch == [c] + rest;
      JudgeKeepsWaiting(s, c, vs[0], rest);
      JudgeKeepsLawful(s, c, vs[0]);
      JudgeAllDoes(mid, rest, vs[1..]);
      var t := JudgeAll(s, batch, vs);
      OneJudged(s, mid, t, c, rest, vs);
    }
  }

  lemma NoneJudged(cands: seq<Candidate>, batch: seq<Candidate>, vs: seq<Verdict>)
    requires batch == [] || vs == []
    ensures Judged(cands, cands, batch, vs) && Bred(|cands|, cands, Parents(batch, vs)) && IdsOf(batch, |vs|) == []
  {}

  /** One row after its judgement, and the rest of the table. */
  lemma MidRows(s: Store, c: Candidate, v: Verdict)
    requires LawfulRows(s.cands) && Awaits(s.cands, c)
    ensures var mid := Judge(s, c, v);
      && |s.cands| <= |mid.cands| && mid.judged == s.judged + [c.id]
      && (forall i | 0 <= i < |s.cands| :: mid.cands[i] == if i == c.id - 1 then c.(status := StatusAfter(c, v)) else s.cands[i])
      && if Breeds(c, v) then |mid.cands| == |s.cands| + 1 && mid.cands[|s.cands|] == Child(s.cands, c)
         else |mid.cands| == |s.cands|
  {
    JudgeRow(s, c, v);
    hide LawfulRows, StatusAfter, Breeds, UpdateStatus;
  }

  lemma OneJudged(s: Store, mid: Store, t: Store, c: Candidate, rest: seq<Candidate>, vs: seq<Verdict>)
    requires LawfulRows(s.cands) && Waiting(s.cands, [c] + rest) && vs != [] && mid == Judge(s, c, vs[0])
    requires Judged(mid.cands, t.cands, rest, vs[1..]) && Bred(|mid.cands|, t.cands, Parents(rest, vs[1..]))
    requires t.judged == mid.judged + IdsOf(rest, |vs| - 1)
    ensures Judged(s.cands, t.cands, [c] + rest, vs) && Bred(|s.cands|, t.cands, Parents([c] + rest, vs))
    ensures t.judged == s.judged + IdsOf([c] + rest, |vs|)
  {
    hide Judged, Bred, Fits, IdsOf, Judge, LawfulRows, StatusAfter, Breeds, Waiting, Parents;
    RestWaits(s.cands, c, rest);
    MidRows(s, c, vs[0]);
    VerdictFits(c, vs[0]);
    IdsGrow(c, rest, |vs|);
    var done := c.(status := StatusAfter(c, vs[0]));
    assert Bred(|s.cands|, t.cands, Parents([c] + rest, vs)) by { FirstBred(s.cands, mid.cands, t.cands, c, rest, vs); }
    assert Judged(s.cands, t.cands, [c] + rest, vs) by { FirstJudged(s.cands, mid.cands, t.cands, c, done, rest, vs); }
  }

  lemma RestWaits(cands: seq<Candidate>, c: Candidate, rest: seq<Candidate>)
    requires Waiting(cands, [c] + rest)
    ensures Awaits(cands, c) && forall k | 0 <= k < |rest| :: rest[k].id != c.id && rest[k].id <= |cands|
  {
    var batch := [c] + rest;
    assert batch[0] == c && Awaits(cands, batch[0]);
    forall k | 0 <= k < |rest| ensures rest[k].id != c.id && rest[k].id <= |cands| {
      assert batch[k + 1] == rest[k] && batch[0].id != batch[k + 1].id && Awaits(cands, batch[k + 1]);
    }
  }

  lemma AmongMore(c: Candidate, rest: seq<Candidate>, n: nat, id: nat)
    requires n > 0
    ensures Among([c] + rest, n, id) <==> c.id == id || Among(rest, n - 1, id)
  {
    var batch := [c] + rest;
    assert batch[0] == c && forall k | 0 <= k < |rest| :: batch[k + 1] == rest[k];
    if k :| 0 <= k < n && k < |batch| && batch[k].id == id { assert k > 0 ==> rest[k - 1].id == id; }
  }

  lemma VerdictFits(c: Candidate, v: Verdict)
    ensures Fits(v, c.generation, StatusAfter(c, v))
  {}

  function IdsOf(batch: seq<Candidate>, n: nat): seq<nat> {
    seq(Least(|batch|, n), k requires 0 <= k < Least(|batch|, n) => batch[k].id)
  }

  lemma IdsGrow(c: Candidate, rest: seq<Candidate>, n: nat)
    requires n > 0
    ensures IdsOf([c] + rest, n) == [c.id] + IdsOf(rest, n - 1)
  {}

  lemma FirstJudged(a: seq<Candidate>, mid: seq<Candidate>, after: seq<Candidate>, c: Candidate, done: Candidate,
                    rest: seq<Candidate>, vs: seq<Verdict>)
    requires 0 < c.id <= |a| <= |mid| && vs != [] && Fits(vs[0], c.generation, done.status) && done == c.(status := done.status)
    requires forall i | 0 <= i < |a| :: mid[i] == if i == c.id - 1 then done else a[i]
    requires forall k | 0 <= k < |rest| :: rest[k].id != c.id
    requires Judged(mid, after, rest, vs[1..])
    ensures Judged(a, after, [c] + rest, vs)
  {
    hide Fits;
    var batch := [c] + rest;
    assert !Among(rest, |vs| - 1, c.id);
    assert after[c.id - 1] == done;
    forall k | 0 <= k < |batch| && k < |vs| ensures Settles(after, batch[k], vs[k]) {
      if k > 0 { assert batch[k] == rest[k - 1] && vs[k] == vs[1..][k - 1]; }
    }
    forall i | 0 <= i < |a| && !Among(batch, |vs|, i + 1) ensures after[i] == a[i] {
      AmongMore(c, rest, |vs|, i + 1);
    }
  }

  lemma NotAmong(mid: seq<Candidate>, after: seq<Candidate>, batch: seq<Candidate>, vs: seq<Verdict>, i: nat)
    requires Judged(mid, after, batch, vs) && i < |mid| && forall k | 0 <= k < |batch| :: batch[k].id != i + 1
    ensures i < |after| && after[i] == mid[i]
  {
    hide Settles;
  }

  lemma ParentsMore(c: Candidate, rest: seq<Candidate>, vs: seq<Verdict>)
    requires vs != []
    ensures Parents([c] + rest, vs) == (if Breeds(c, vs[0]) then [c] else []) + Parents(rest, vs[1..])
  {
    assert ([c] + rest)[1..] == rest;
  }

  lemma BredMore(before: nat, after: seq<Candidate>, c: Candidate, rest: seq<Candidate>)
    requires Bred(before + 1, after, rest) && before < |after| && ChildOf(after[before], before + 1, c)
    ensures Bred(before, after, [c] + rest)
  {
    hide ChildOf;
    var parents := [c] + rest;
    forall i | before <= i < |after| ensures ChildOf(after[i], i + 1, parents[i - before]) {
      if i > before { assert parents[i - before] == rest[i - (before + 1)]; }
    }
  }

  lemma FirstBred(a: seq<Candidate>, mid: seq<Candidate>, after: seq<Candidate>, c: Candidate, rest: seq<Candidate>, vs: seq<Verdict>)
    requires vs != [] && Judged(mid, after, rest, vs[1..]) && Bred(|mid|, after, Parents(rest, vs[1..]))
    requires if Breeds(c, vs[0]) then |mid| == |a| + 1 && mid[|a|] == Child(a, c) else |mid| == |a|
    requires forall k | 0 <= k < |rest| :: rest[k].id != |a| + 1
    ensures Bred(|a|, after, Parents([c] + rest, vs))
  {
    ParentsMore(c, rest, vs);
    hide Parents, Breeds, Bred;
    if Breeds(c, vs[0]) {
      NotAmong(mid, after, rest, vs[1..], |a|);
      hide Judged;
      BredMore(|a|, after, c, Parents(rest, vs[1..]));
    } else {
      assert [] + Parents(rest, vs[1..]) == Parents(rest, vs[1..]);
    }
  }

  /** The rows that await judgement, all of them and in order. */
  ghost predicate Snapshot(cands: seq<Candidate>, batch: seq<Candidate>) {
    && (forall c :: c in batch <==> c in cands && c.status == Generated)
    && forall k, l | 0 <= k < l < |batch| :: batch[k].id < batch[l].id
  }

  /** MAIN. One tick, outright: of the generated rows, in order and within the work limit, each
      gets the status its verdict calls for and is recorded once; each mutation below the cap
      that the guard lets through has one child of the next generation at the end of the
      table; rows beyond the limit and all others stay as they were. */
  lemma {:induction false} TickDoes(s: Store, vs: seq<Verdict>)
    requires Lawful(s)
    ensures var t, batch := Next(s, Tick(vs)), Pending(s.cands);
      && Snapshot(s.cands, batch) && Waiting(s.cands, batch)
      && Judged(s.cands, t.cands, batch, vs) && Bred(|s.cands|, t.cands, Parents(batch, vs))
      && t.judged == s.judged + IdsOf(batch, |vs|)
  {
    PendingWaits(s.cands);
    PendingIsAll(s.cands);
    JudgeAllDoes(s, Pending(s.cands), vs);
  }

  lemma {:induction false} PendingIsAll(cands: seq<Candidate>)
    ensures forall c :: c in Pending(cands) <==> c in cands && c.status == Generated
  {
    if cands != [] {
      PendingIsAll(cands[1..]);
      assert cands == [cands[0]] + cands[1..];
    }
  }

  // -------------------------------------------------------------------- tallies of verdicts

  /** How many of the verdicts used are of a kind. */
  function Tally(batch: seq<Candidate>, vs: seq<Verdict>, kind: (Candidate, Verdict) -> bool): nat
    decreases |batch|
  {
    if batch == [] || vs == [] then 0
    else (if kind(batch[0], vs[0]) then 1 else 0) + Tally(batch[1..], vs[1..], kind)
  }

  predicate Tests(c: Candidate, v: Verdict) { v != Decline }

  predicate Declines(c: Candidate, v: Verdict) { v == Decline }

  predicate Promotes(c: Candidate, v: Verdict) { v == Promote }

  predicate Mutates(c: Candidate, v: Verdict) { v.Mutate? && c.generation < 6 }

  predicate Archives(c: Candidate, v: Verdict) { v == Archive || v == Reject || (v.Mutate? && c.generation >= 6) }

  // ------------------------------------------------------------------------------ runs

  /** What can happen to the table: a tick judges the first `|verdicts|` pending candidates
      (its work limit); a new loop or thread adds a root; a reaction archives a candidate
      from outside. */
  datatype Step = Tick(verdicts: seq<Verdict>) | Root(loop: string) | Demote(id: nat)

  function Next(s: Store, step: Step): Store {
    match step
    case Tick(vs) => JudgeAll(s, Pending(s.cands), vs)
    case Root(loop) => s.(cands := s.cands + [FromLoop(s.cands, loop)])
    case Demote(id) => s.(cands := UpdateStatus(s.cands, id, Archived))
  }

  function Run(s: Store, steps: seq<Step>): Store
    decreases |steps|
  {
    if steps == [] then s else Run(Next(s, steps[0]), steps[1..])
  }

  lemma DemoteIsAt(cands: seq<Candidate>, id: nat)
    requires LawfulRows(cands)
    ensures UpdateStatus(cands, id, Archived) ==
      if 0 < id <= |cands| then cands[id - 1 := cands[id - 1].(status := Archived)] else cands
  {
    forall i | 0 <= i < |cands| ensures cands[i].id == i + 1 { assert LawfulRow(cands, i); }
  }

  lemma DemoteSums(cands: seq<Candidate>, id: nat)
    requires LawfulRows(cands)
    ensures Sum(Weight, UpdateStatus(cands, id, Archived)) <= Sum(Weight, cands)
    ensures Roots(UpdateStatus(cands, id, Archived)) == Roots(cands)
  {
    DemoteIsAt(cands, id);
    if 0 < id <= |cands| {
      var gone := cands[id - 1].(status := Archived);
      SumUpdate(Weight, cands, id - 1, gone);
      SumUpdate(IsRoot, cands, id - 1, gone);
    }
  }

  lemma DemoteKeeps(s: Store, id: nat)
    requires Lawful(s)
    ensures Lawful(Next(s, Demote(id)))
    ensures Next(s, Demote(id)).cands == seq(|s.cands|, i requires 0 <= i < |s.cands| =>
              if i + 1 == id then s.cands[i].(status := Archived) else s.cands[i])
  {
    DemoteIsAt(s.cands, id);
    var t := Next(s, Demote(id)).cands;
    forall i | 0 <= i < |t| ensures LawfulRow(t, i) { assert LawfulRow(s.cands, i); }
    forall k | 0 <= k < |s.judged| ensures Settled(t, s.judged[k]) { assert Settled(s.cands, s.judged[k]); }
  }

  lemma RootKeeps(s: Store, loop: string)
    requires Lawful(s)
    ensures Lawful(Next(s, Root(loop)))
    ensures Next(s, Root(loop)).cands == s.cands + [Candidate(|s.cands| + 1, 0, loop, 0, Generated)]
    ensures Sum(Weight, Next(s, Root(loop)).cands) == Sum(Weight, s.cands) + MAX_MUTATION_GENERATION + 1
    ensures Roots(Next(s, Root(loop)).cands) == Roots(s.cands) + 1
  {
    var t := Next(s, Root(loop));
    SumAppend(Weight, s.cands, FromLoop(s.cands, loop));
    SumAppend(IsRoot, s.cands, FromLoop(s.cands, loop));
    forall i | 0 <= i < |t.cands| ensures LawfulRow(t.cands, i) {
      if i < |s.cands| { assert LawfulRow(s.cands, i); }
    }
    forall k | 0 <= k < |t.judged| ensures Settled(t.cands, t.judged[k]) { assert Settled(s.cands, s.judged[k]); }
  }

  /** The population never outgrows its weight, and only a new root brings weight. */
  ghost predicate Bounded(s: Store) {
    Lawful(s) && Sum(Weight, s.cands) <= (MAX_MUTATION_GENERATION + 1) * Roots(s.cands)
  }

  lemma NextKeepsBounded(s: Store, step: Step)
    requires Bounded(s)
    ensures Bounded(Next(s, step))
  {
    match step {
      case Tick(vs) =>
        PendingWaits(s.cands);
        JudgeAllKeeps(s, Pending(s.cands), vs);
      case Root(loop) => RootKeeps(s, loop);
      case Demote(id) =>
        DemoteKeeps(s, id);
        DemoteSums(s.cands, id);
    }
  }

  lemma {:induction false} RunKeepsBounded(s: Store, steps: seq<Step>)
    requires Bounded(s)
    ensures Bounded(Run(s, steps))
    decreases |steps|
  {
    if steps != [] {
      NextKeepsBounded(s, steps[0]);
      RunKeepsBounded(Next(s, steps[0]), steps[1..]);
    }
  }

  /** MAIN. In every reachable table ids are unique, children stay in their lineage and
      under the cap, every candidate has at most one child, and none is judged twice. */
  lemma EveryRunIsLawful(steps: seq<Step>)
    ensures Lawful(Run(Store([], []), steps))
  {
    RunKeepsBounded(Store([], []), steps);
  }

  /** MAIN. Seven per root, whatever selection decides and in whatever order. */
  lemma PopulationBound(steps: seq<Step>)
    ensures var cands := Run(Store([], []), steps).cands;
      |cands| <= (MAX_MUTATION_GENERATION + 1) * Roots(cands)
  {
    RunKeepsBounded(Store([], []), steps);
    SumAtLeastLength(Run(Store([], []), steps).cands);
  }

  // ------------------------------------------------------------------ the bound is attained

  /** Only the newest candidate awaits judgement, at this generation. */
  ghost predicate OneWaits(s: Store, generation: nat) {
    && Lawful(s) && s.cands != []
    && s.cands[|s.cands| - 1].status == Generated && s.cands[|s.cands| - 1].generation == generation
    && forall i | 0 <= i < |s.cands| - 1 :: s.cands[i].status != Generated
  }

  ghost predicate NoneWaits(s: Store) { Lawful(s) && forall i | 0 <= i < |s.cands| :: s.cands[i].status != Generated }

  lemma {:induction false} PendingOfSettled(cands: seq<Candidate>)
    requires forall i | 0 <= i < |cands| :: cands[i].status != Generated
    ensures Pending(cands) == []
  {
    if cands != [] { PendingOfSettled(cands[1..]); }
  }

  lemma {:induction false} PendingOfOne(cands: seq<Candidate>)
    requires cands != [] && cands[|cands| - 1].status == Generated
    requires forall i | 0 <= i < |cands| - 1 :: cands[i].status != Generated
    ensures Pending(cands) == [cands[|cands| - 1]]
  {
    if |cands| > 1 { PendingOfOne(cands[1..]); } else { PendingOfSettled(cands[1..]); }
  }

  const MUTATE: Step := Tick([Mutate(false)])

  lemma JudgeOfOne(s: Store, c: Candidate, v: Verdict)
    ensures JudgeAll(s, [c], [v]) == Judge(s, c, v)
  {
    assert [c][1..] == [] && [v][1..] == [];
  }

  /** One such tick breeds the next of the line, or retires the last one. */
  lemma LineGoesOn(s: Store, generation: nat)
    requires OneWaits(s, generation) && generation <= MAX_MUTATION_GENERATION
    ensures var n := Next(s, MUTATE);
      && Roots(n.cands) == Roots(s.cands)
      && if generation < MAX_MUTATION_GENERATION then OneWaits(n, generation + 1) && |n.cands| == |s.cands| + 1
         else NoneWaits(n) && |n.cands| == |s.cands|
  {
    var c := s.cands[|s.cands| - 1];
    assert LawfulRow(s.cands, |s.cands| - 1);
    PendingOfOne(s.cands);
    JudgeOfOne(s, c, Mutate(false));
    JudgeRow(s, c, Mutate(false));
    JudgeKeepsLawful(s, c, Mutate(false));
    JudgePays(s, c, Mutate(false));
    hide Sum, Judge, LawfulRows, OneChildEach, JudgedOnce, Pending, JudgeAll;
    assert Next(s, MUTATE) == Judge(s, c, Mutate(false));
  }

  lemma {:induction false} RunAppend(s: Store, a: seq<Step>, b: seq<Step>)
    ensures Run(s, a + b) == Run(Run(s, a), b)
    decreases |a|
  {
    if a == [] {
      assert a + b == b;
    } else {
      assert (a + b)[1..] == a[1..] + b;
      RunAppend(Next(s, a[0]), a[1..], b);
    }
  }

  lemma {:induction false} LineOfSeven(s: Store, generation: nat) returns (steps: seq<Step>)
    requires OneWaits(s, generation) && generation <= MAX_MUTATION_GENERATION
    ensures var n := Run(s, steps);
      NoneWaits(n) && Roots(n.cands) == Roots(s.cands) && |n.cands| == |s.cands| + MAX_MUTATION_GENERATION - generation
    decreases MAX_MUTATION_GENERATION - generation
  {
    LineGoesOn(s, generation);
    if generation < MAX_MUTATION_GENERATION {
      var rest := LineOfSeven(Next(s, MUTATE), generation + 1);
      steps := [MUTATE] + rest;
      assert steps[1..] == rest;
    } else {
      steps := [MUTATE];
      assert steps[1..] == [];
    }
  }

  /** MAIN. The bound is attained for any number of roots: seven candidates each, not six. */
  lemma {:induction false} PopulationBoundIsTight(roots: nat) returns (steps: seq<Step>)
    ensures var n := Run(Store([], []), steps);
      NoneWaits(n) && Roots(n.cands) == roots && |n.cands| == (MAX_MUTATION_GENERATION + 1) * roots
  {
    if roots == 0 {
      steps := [];
    } else {
      var before := PopulationBoundIsTight(roots - 1);
      var line := FromRoot(Run(Store([], []), before));
      steps := before + line;
      RunAppend(Store([], []), before, line);
    }
  }

  lemma FromRoot(s: Store) returns (steps: seq<Step>)
    requires NoneWaits(s)
    ensures var n := Run(s, steps);
      NoneWaits(n) && Roots(n.cands) == Roots(s.cands) + 1 && |n.cands| == |s.cands| + MAX_MUTATION_GENERATION + 1
  {
    RootKeeps(s, "loop");
    var rooted := Next(s, Root("loop"));
    assert OneWaits(rooted, 0);
    var line := LineOfSeven(rooted, 0);
    steps := [Root("loop")] + line;
    assert steps[1..] == line;
  }

  // ------------------------------------------------------------------------- the drain

  /** No new root among them: ticks of any size, and reactions that archive. */
  ghost predicate Rootless(steps: seq<Step>) { forall i | 0 <= i < |steps| :: !steps[i].Root? }

  /** The ticks with room for at least one trial. */
  function WorkingTicks(steps: seq<Step>): nat
    decreases |steps|
  {
    if steps == [] then 0 else WorkingTicks(steps[1..]) + if steps[0].Tick? && steps[0].verdicts != [] then 1 else 0
  }

  lemma DemoteOwesLess(cands: seq<Candidate>, id: nat)
    requires LawfulRows(cands)
    ensures Debt(UpdateStatus(cands, id, Archived)) <= Debt(cands)
  {
    DemoteIsAt(cands, id);
    if 0 < id <= |cands| { SumUpdate(Owed, cands, id - 1, cands[id - 1].(status := Archived)); }
  }

  /** MAIN. The pending set drains: over any run without a new root, reactions falling between
      the ticks as they may, each tick with room for a trial lowers the debt while anything is
      pending, so after `Debt` such ticks nothing is left to judge. */
  lemma {:induction false} PendingDrains(s: Store, steps: seq<Step>)
    requires Lawful(s) && Rootless(steps)
    ensures Lawful(Run(s, steps))
    ensures Debt(Run(s, steps).cands) <= if Debt(s.cands) <= WorkingTicks(steps) then 0 else Debt(s.cands) - WorkingTicks(steps)
    decreases |steps|
  {
    if steps != [] {
      match steps[0] {
        case Tick(vs) =>
          PendingWaits(s.cands);
          JudgeAllKeeps(s, Pending(s.cands), vs);
          if Pending(s.cands) == [] { NothingPending(s.cands); }
        case Demote(id) =>
          DemoteKeeps(s, id);
          DemoteOwesLess(s.cands, id);
        case Root(_) =>
      }
      PendingDrains(Next(s, steps[0]), steps[1..]);
    }
  }

  lemma NothingLeft(s: Store, steps: seq<Step>)
    requires Lawful(s) && Rootless(steps) && WorkingTicks(steps) >= Debt(s.cands)
    ensures forall i | 0 <= i < |Run(s, steps).cands| :: Run(s, steps).cands[i].status != Generated
  {
    PendingDrains(s, steps);
    var end := Run(s, steps).cands;
    DebtFree(end);
    forall i | 0 <= i < |end| ensures end[i].status != Generated { assert LawfulRow(end, i) && Owed(end[i]) == 0; }
  }

  lemma {:induction false} NothingPending(cands: seq<Candidate>)
    requires Pending(cands) == []
    ensures forall i | 0 <= i < |cands| :: cands[i].status != Generated
    ensures Debt(cands) == 0
  {
    if cands != [] {
      NothingPending(cands[1..]);
      NoneOwed(cands);
    }
  }

  lemma {:induction false} NoneOwed(cands: seq<Candidate>)
    requires forall i | 0 <= i < |cands| :: cands[i].status != Generated
    ensures Debt(cands) == 0
  {
    if cands != [] { NoneOwed(cands[..|cands| - 1]); }
  }

  // ---------------------------------------------------------------------- run_execution

  class Searcher {
    var cands: seq<Candidate>
    /** Trial rows and recorded refusals, by candidate id. */
    var judged: seq<nat>

    ghost function View(): Store
      reads this
    {
      Store(cands, judged)
    }

    constructor ()
      ensures View() == Store([], [])
    {
      cands, judged := [], [];
    }

    /** One call of `run_execution`: the snapshot of pending rows is taken first, so the
        children it breeds wait for the next call. `verdicts` is as long as the work limit. */
    method RunExecution(verdicts: seq<Verdict>)
      returns (tested: nat, promoted: nat, mutated: nat, archived: nat, declined: nat)
      requires Lawful(View())
      modifies this
      ensures View() == Next(old(View()), Tick(verdicts))
      ensures Lawful(View())
      ensures promoted + mutated + archived <= tested
      ensures Sum(IsPromoted, cands) == Sum(IsPromoted, old(cands)) + promoted
      ensures Sum(IsMutated, cands) == Sum(IsMutated, old(cands)) + mutated
      ensures Sum(IsArchived, cands) == Sum(IsArchived, old(cands)) + archived + declined
      ensures |judged| == |old(judged)| + tested + declined
      ensures |old(cands)| <= |cands| <= |old(cands)| + mutated
      ensures var batch := Pending(old(cands));
        && tested == Tally(batch, verdicts, Tests) && declined == Tally(batch, verdicts, Declines)
        && promoted == Tally(batch, verdicts, Promotes) && mutated == Tally(batch, verdicts, Mutates)
        && archived == Tally(batch, verdicts, Archives)
    {
      hide Judge, LawfulRows, OneChildEach, JudgedOnce, Sum, Awaits, Pending;
      var pending, left := Pending(cands), verdicts;
      PendingWaits(cands);
      tested, promoted, mutated, archived, declined := 0, 0, 0, 0, 0;
      while pending != [] && left != []
        invariant InFlight(View(), pending)
        invariant JudgeAll(View(), pending, left) == Next(old(View()), Tick(verdicts))
        invariant tested + Tally(pending, left, Tests) == Tally(Pending(old(cands)), verdicts, Tests)
        invariant declined + Tally(pending, left, Declines) == Tally(Pending(old(cands)), verdicts, Declines)
        invariant promoted + Tally(pending, left, Promotes) == Tally(Pending(old(cands)), verdicts, Promotes)
        invariant mutated + Tally(pending, left, Mutates) == Tally(Pending(old(cands)), verdicts, Mutates)
        invariant archived + Tally(pending, left, Archives) == Tally(Pending(old(cands)), verdicts, Archives)
        invariant promoted + mutated + archived <= tested
        invariant Sum(IsPromoted, cands) == Sum(IsPromoted, old(cands)) + promoted
        invariant Sum(IsMutated, cands) == Sum(IsMutated, old(cands)) + mutated
        invariant Sum(IsArchived, cands) == Sum(IsArchived, old(cands)) + archived + declined
        invariant |judged| == |old(judged)| + tested + declined
        invariant |old(cands)| <= |cands| <= |old(cands)| + mutated
        decreases |pending|
      {
        var c, v := pending[0], left[0];
        OneMore(View(), pending, left);
        assert Awaits(cands, c);
        JudgeCounts(View(), c, v);
        JudgeOne(c, v);
        pending, left := pending[1..], left[1..];
        if v == Decline {
          declined := declined + 1;
        } else {
          tested := tested + 1;
          if v == Promote {
            promoted := promoted + 1;
          } else if v.Archive? || v.Reject? || (v.Mutate? && c.generation >= MAX_MUTATION_GENERATION) {
            archived := archived + 1;
          } else if v.Mutate? {
            mutated := mutated + 1;
          }
        }
      }
    }

    /** The body of the loop: one trial (or refusal), one verdict, at most one child. */
    method JudgeOne(c: Candidate, v: Verdict)
      modifies this
      ensures View() == Judge(old(View()), c, v)
      ensures forall i | 0 <= i < |old(cands)| && old(cands)[i].id == c.id :: Fits(v, c.generation, cands[i].status)
      ensures |judged| == |old(judged)| + 1
      ensures |cands| == |old(cands)| + (if Breeds(c, v) then 1 else 0)
    {
      assert cands + [] == cands;
      judged := judged + [c.id];
      match v {
        case Promote =>
          cands := UpdateStatus(cands, c.id, Promoted);
        case Mutate(regression) =>
          if c.generation >= MAX_MUTATION_GENERATION {
            cands := UpdateStatus(cands, c.id, Archived);
          } else {
            if !regression { cands := cands + [Child(cands, c)]; }
            cands := UpdateStatus(cands, c.id, Mutated);
          }
        case ObserveMore =>
          cands := UpdateStatus(cands, c.id, Observing);
        case Hold =>
          cands := UpdateStatus(cands, c.id, Observing);
        case _ =>
          cands := UpdateStatus(cands, c.id, Archived);
      }
    }
  }
}
