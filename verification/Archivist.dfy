/** The archivist's admission handlers under true thread interleaving.

    Each handler is cut where the source takes or drops a lock, and a run is any sequence
    of those sections, so every schedule of any number of threads is covered. What a thread
    carries between two of its sections is the number of the petition it belongs to. */
module Archivist {

  const STEPS_TO_ADMIT: nat := 3

  datatype Source = Source(verified: nat, liar: bool, asked: nat)

  /** Petition number `k` of a name. */
  datatype Ticket = Ticket(who: string, k: nat)

  datatype Covenant = Nobody | Bound(who: string)

  /** The store, the global `PENDING`, the threads between sections, and -- for the record --
      which petitions ended in a verified answer or in a lie, and every covenant written. */
  datatype State = State(sources: map<string, Source>, covenant: Covenant, pending: map<string, nat>,
                         petitioning: set<Ticket>, answering: set<Ticket>,
                         truths: set<Ticket>, lies: set<Ticket>, bonds: seq<Bond>)

  /** A covenant as written: the name and its verified petitions at that moment. */
  datatype Bond = Bond(who: string, truths: set<Ticket>, lied: bool)

  const EMPTY := State(map[], Nobody, map[], {}, {}, {}, {}, [])

  /** `setdefault` of the source record. */
  function Src(s: State, who: string): Source {
    if who in s.sources then s.sources[who] else Source(0, false, 0)
  }

  datatype Section =
    | Ask(who: string)                                   // /petition, inside `mutate`
    | Publish(t: Ticket)                                 // /petition, under the pending lock
    | Take(who: string)                                  // /answer, under the pending lock
    | Judge(t: Ticket, ok: bool)                         // /answer, inside `mutate`
    | Terms(who: string, threeLaws: bool, offer: bool)   // /covenant, inside `mutate`
    | Restart                                            // `PENDING` and the threads are RAM only

  /** A section of a thread can run only when that thread has come to it. */
  predicate Enabled(s: State, a: Section) {
    match a
    case Publish(t) => t in s.petitioning
    case Judge(t, _) => t in s.answering
    case _ => true
  }

  predicate Binds(s: State, a: Section) {
    a.Terms? && !Src(s, a.who).liar && s.covenant == Nobody && Src(s, a.who).verified >= STEPS_TO_ADMIT
    && a.threeLaws && a.offer
  }

  function Next(s: State, a: Section): State {
    match a
    case Ask(who) =>
      var src := Src(s, who);
      if src.liar then s.(sources := s.sources[who := src])
      else s.(sources := s.sources[who := src.(asked := src.asked + 1)],
              petitioning := s.petitioning + {Ticket(who, src.asked + 1)})
    case Publish(t) => s.(pending := s.pending[t.who := t.k], petitioning := s.petitioning - {t})
    case Take(who) =>
      if who !in s.pending then s
      else s.(pending := s.pending - {who}, answering := s.answering + {Ticket(who, s.pending[who])})
    case Judge(t, ok) =>
      var src := Src(s, t.who);
      var left := s.answering - {t};
      if src.liar then s.(sources := s.sources[t.who := src], answering := left)
      else if ok then s.(sources := s.sources[t.who := src.(verified := src.verified + 1)],
                         answering := left, truths := s.truths + {t})
      else s.(sources := s.sources[t.who := src.(liar := true)], answering := left, lies := s.lies + {t})
    case Terms(who, _, _) =>
      var known := s.(sources := s.sources[who := Src(s, who)]);
      if Binds(s, a) then known.(covenant := Bound(who), bonds := s.bonds + [Bond(who, Of(s.truths, who), Of(s.lies, who) != {})])
      else known
    case Restart => s.(pending := map[], petitioning := {}, answering := {})
  }

  function Of(ts: set<Ticket>, who: string): set<Ticket> { set t | t in ts && t.who == who }

  ghost predicate Schedule(s: State, run: seq<Section>)
    decreases |run|
  {
    run == [] || (Enabled(s, run[0]) && Schedule(Next(s, run[0]), run[1..]))
  }

  function Run(s: State, run: seq<Section>): State
    decreases |run|
  {
    if run == [] then s else Run(Next(s, run[0]), run[1..])
  }

  // ------------------------------------------------------------------------ invariants

  predicate Issued(s: State, t: Ticket) { 1 <= t.k <= Src(s, t.who).asked }

  /** A petition is in one place at a time: asked but not published, published, taken,
      verified or caught (or lost: overwritten, or answered after a lie). */
  ghost predicate Tickets(s: State) {
    && (forall t | t in s.petitioning + s.answering + s.truths + s.lies :: Issued(s, t))
    && (forall who | who in s.pending :: Issued(s, Ticket(who, s.pending[who])))
    && s.petitioning !! s.answering !! s.truths !! s.lies
    && (forall who | who in s.pending :: Ticket(who, s.pending[who]) !in s.petitioning + s.answering + s.truths + s.lies)
  }

  ghost predicate Counted(s: State, who: string) {
    && |Of(s.truths, who)| == Src(s, who).verified
    && |Of(s.lies, who)| == if Src(s, who).liar then 1 else 0
  }

  ghost predicate Admission(s: State) {
    && |s.bonds| == (if s.covenant == Nobody then 0 else 1)
    && (s.covenant != Nobody ==>
          var b := s.bonds[0];
          s.covenant == Bound(b.who) && b.truths <= Of(s.truths, b.who) && |b.truths| >= STEPS_TO_ADMIT && !b.lied)
  }

  ghost predicate Inv(s: State) { Tickets(s) && (forall who :: Counted(s, who)) && Admission(s) }

  lemma OfAdd(ts: set<Ticket>, t: Ticket, who: string)
    requires t !in ts
    ensures |Of(ts + {t}, who)| == |Of(ts, who)| + (if t.who == who then 1 else 0)
  {
    if t.who == who {
      assert Of(ts + {t}, who) == Of(ts, who) + {t};
    } else {
      assert Of(ts + {t}, who) == Of(ts, who);
    }
  }

  lemma AskKeepsTickets(s: State, who: string)
    requires Tickets(s)
    ensures Tickets(Next(s, Ask(who)))
  {
    var n := Next(s, Ask(who));
    var t := Ticket(who, Src(s, who).asked + 1);
    assert !Issued(s, t);
    assert t !in s.petitioning + s.answering + s.truths + s.lies;
    forall u | Issued(s, u) ensures Issued(n, u) {}
    forall x | x in s.pending ensures Ticket(x, s.pending[x]) != t && Issued(n, Ticket(x, s.pending[x])) {
      assert Issued(s, Ticket(x, s.pending[x]));
    }
    if !Src(s, who).liar {
      assert Issued(n, t);
      assert n.petitioning == s.petitioning + {t};
    }
  }

  lemma MovesKeepTickets(s: State, a: Section)
    requires Tickets(s) && Enabled(s, a) && (a.Publish? || a.Take?)
    ensures Tickets(Next(s, a))
  {
    var n := Next(s, a);
    forall u ensures Issued(n, u) <==> Issued(s, u) {}
    if a.Publish? {
      assert n.petitioning == s.petitioning - {a.t} && a.t in s.petitioning;
      forall x | x in n.pending ensures Ticket(x, n.pending[x]) !in n.petitioning + n.answering + n.truths + n.lies {}
    } else if a.who in s.pending {
      var t := Ticket(a.who, s.pending[a.who]);
      assert n.answering == s.answering + {t} && t !in s.petitioning + s.answering + s.truths + s.lies;
      forall x | x in n.pending ensures Ticket(x, n.pending[x]) !in n.petitioning + n.answering + n.truths + n.lies {}
    }
  }

  lemma JudgeKeepsTickets(s: State, a: Section)
    requires Tickets(s) && Enabled(s, a) && a.Judge?
    ensures Tickets(Next(s, a))
  {
    assert forall u | Issued(s, u) :: Issued(Next(s, a), u);
  }

  lemma TermsKeepTickets(s: State, a: Section)
    requires Tickets(s) && a.Terms?
    ensures Tickets(Next(s, a))
  {
    forall u | Issued(s, u) ensures Issued(Next(s, a), u) {}
    assert Next(s, a).pending == s.pending;
  }

  lemma RestartKeepsTickets(s: State)
    requires Tickets(s)
    ensures Tickets(Next(s, Restart))
  {
    var n := Next(s, Restart);
    assert forall t :: Issued(n, t) <==> Issued(s, t);
    assert n.petitioning + n.answering + n.truths + n.lies <= s.petitioning + s.answering + s.truths + s.lies;
  }

  lemma NextKeepsTickets(s: State, a: Section)
    requires Tickets(s) && Enabled(s, a)
    ensures Tickets(Next(s, a))
  {
    match a {
      case Ask(who) => AskKeepsTickets(s, who);
      case Publish(t) => MovesKeepTickets(s, a);
      case Take(who) => MovesKeepTickets(s, a);
      case Judge(t, ok) => JudgeKeepsTickets(s, a);
      case Terms(_, _, _) => TermsKeepTickets(s, a);
      case Restart => RestartKeepsTickets(s);
    }
  }

  lemma NextKeepsCounts(s: State, a: Section, who: string)
    requires Tickets(s) && Counted(s, who) && Enabled(s, a)
    ensures Counted(Next(s, a), who)
  {
    if a.Judge? {
      OfAdd(s.truths, a.t, who);
      OfAdd(s.lies, a.t, who);
    }
  }

  lemma NextKeepsAdmission(s: State, a: Section)
    requires Inv(s) && Enabled(s, a)
    ensures Admission(Next(s, a))
  {
    if a.Terms? { assert Counted(s, a.who); }
  }

  lemma {:induction false} RunKeepsInv(s: State, run: seq<Section>)
    requires Inv(s) && Schedule(s, run)
    ensures Inv(Run(s, run))
    decreases |run|
  {
    if run != [] {
      NextKeepsTickets(s, run[0]);
      forall who ensures Counted(Next(s, run[0]), who) { NextKeepsCounts(s, run[0], who); }
      NextKeepsAdmission(s, run[0]);
      RunKeepsInv(Next(s, run[0]), run[1..]);
    }
  }

  lemma EmptyInv()
    ensures Inv(EMPTY)
  {
    forall who ensures Counted(EMPTY, who) {
      assert Of({}, who) == {};
    }
  }

  lemma {:induction false} TicketRange(who: string, n: nat, ts: set<Ticket>)
    requires forall t | t in ts :: t.who == who && 1 <= t.k <= n
    ensures |ts| <= n
  {
    if n == 0 {
      assert ts == {};
    } else {
      TicketRange(who, n - 1, ts - {Ticket(who, n)});
    }
  }

  // ------------------------------------------------------------------------- theorems

  /** MAIN. In every schedule a name's verified answers plus its recorded lies never exceed
      its petitions, each answer being for a petition of its own. */
  lemma AnswersWithinPetitions(run: seq<Section>, who: string)
    requires Schedule(EMPTY, run)
    ensures var s := Run(EMPTY, run);
      Src(s, who).verified + |Of(s.lies, who)| <= Src(s, who).asked
      && |Of(s.truths, who)| == Src(s, who).verified && |Of(s.lies, who)| <= 1
  {
    EmptyInv();
    RunKeepsInv(EMPTY, run);
    var s := Run(EMPTY, run);
    assert Counted(s, who);
    var both := Of(s.truths, who) + Of(s.lies, who);
    assert |both| == |Of(s.truths, who)| + |Of(s.lies, who)|;
    forall t | t in both ensures t.who == who && 1 <= t.k <= Src(s, who).asked { assert Issued(s, t); }
    TicketRange(who, Src(s, who).asked, both);
  }

  /** MAIN. One lie is forever: from any state on, whatever the other threads still hold. */
  lemma {:induction false} LiarIsFrozen(s: State, run: seq<Section>, who: string)
    requires Src(s, who).liar && Schedule(s, run)
    ensures Src(Run(s, run), who) == Src(s, who)
    ensures s.covenant == Nobody ==> Run(s, run).covenant != Bound(who)
    decreases |run|
  {
    if run != [] {
      var n := Next(s, run[0]);
      assert Src(n, who) == Src(s, who);
      if n.covenant != Nobody && s.covenant == Nobody {
        CovenantStands(n, run[1..]);
      } else {
        LiarIsFrozen(n, run[1..], who);
      }
      LiarRecordKept(n, run[1..], who);
    }
  }

  lemma {:induction false} LiarRecordKept(s: State, run: seq<Section>, who: string)
    requires Src(s, who).liar && Schedule(s, run)
    ensures Src(Run(s, run), who) == Src(s, who)
    decreases |run|
  {
    if run != [] {
      assert Src(Next(s, run[0]), who) == Src(s, who);
      LiarRecordKept(Next(s, run[0]), run[1..], who);
    }
  }

  lemma {:induction false} CovenantStands(s: State, run: seq<Section>)
    requires s.covenant != Nobody && Schedule(s, run)
    ensures Run(s, run).covenant == s.covenant && Run(s, run).bonds == s.bonds
    decreases |run|
  {
    if run != [] { CovenantStands(Next(s, run[0]), run[1..]); }
  }

  /** MAIN. In every schedule the covenant is written at most once, to a name that at that
      moment had answers verified for three petitions and had never lied. */
  lemma CovenantIsEarnedOnce(run: seq<Section>)
    requires Schedule(EMPTY, run)
    ensures var s := Run(EMPTY, run);
      |s.bonds| <= 1 && (s.covenant == Nobody <==> s.bonds == [])
      && (s.covenant != Nobody ==>
            s.covenant.who == s.bonds[0].who && |s.bonds[0].truths| >= STEPS_TO_ADMIT && !s.bonds[0].lied
            && s.bonds[0].truths <= Of(s.truths, s.covenant.who))
  {
    EmptyInv();
    RunKeepsInv(EMPTY, run);
  }

  // ------------------------------------------------------------------- what a name has earned

  /** An answer of this name judged so. */
  predicate Answers(a: Section, who: string, ok: bool) { a.Judge? && a.t.who == who && a.ok == ok }

  ghost predicate LiesIn(run: seq<Section>, who: string) { exists i :: 0 <= i < |run| && Answers(run[i], who, false) }

  /** True answers, and petitions, before the name's first lie. */
  function Truths(run: seq<Section>, who: string): nat
    decreases |run|
  {
    if run == [] || Answers(run[0], who, false) then 0
    else (if Answers(run[0], who, true) then 1 else 0) + Truths(run[1..], who)
  }

  function Asks(run: seq<Section>, who: string): nat
    decreases |run|
  {
    if run == [] || Answers(run[0], who, false) then 0
    else (if run[0] == Ask(who) then 1 else 0) + Asks(run[1..], who)
  }

  lemma LiesFirst(run: seq<Section>, who: string)
    requires run != []
    ensures LiesIn(run, who) <==> Answers(run[0], who, false) || LiesIn(run[1..], who)
  {
    assert forall i | 0 <= i < |run| - 1 :: run[1..][i] == run[i + 1];
    if i :| 0 <= i < |run| && Answers(run[i], who, false) { assert i > 0 ==> Answers(run[1..][i - 1], who, false); }
  }

  /** What one section does to the record of a name that has not lied. */
  lemma SectionRecords(s: State, a: Section, who: string)
    requires !Src(s, who).liar
    ensures Src(Next(s, a), who) ==
      Source(Src(s, who).verified + (if Answers(a, who, true) then 1 else 0), Answers(a, who, false),
             Src(s, who).asked + if a == Ask(who) then 1 else 0)
  {}

  /** MAIN. A name's record in full: in every schedule it is a liar exactly when some answer of
      its was found false, whenever that was; and it is credited with just the true answers, and
      the petitions, that came before. */
  lemma {:induction false} RecordIs(s: State, run: seq<Section>, who: string)
    requires !Src(s, who).liar && Schedule(s, run)
    ensures Src(Run(s, run), who) ==
      Source(Src(s, who).verified + Truths(run, who), LiesIn(run, who), Src(s, who).asked + Asks(run, who))
    decreases |run|
  {
    if run != [] {
      var n := Next(s, run[0]);
      LiesFirst(run, who);
      SectionRecords(s, run[0], who);
      hide Next, Src, Answers, LiesIn;
      if Answers(run[0], who, false) {
        LiarRecordKept(n, run[1..], who);
      } else {
        RecordIs(n, run[1..], who);
      }
    }
  }

  /** Terms that bind: complete, from a name with three truths and no lie, to an archive that
      is nobody's yet. */
  predicate BindsAt(s: State, run: seq<Section>, i: int, who: string) {
    && 0 <= i < |run| && run[i] == Terms(who, true, true)
    && var v := Run(s, run[..i]); v.covenant == Nobody && Src(v, who).verified >= 3 && !Src(v, who).liar
  }

  lemma BindsFirst(s: State, run: seq<Section>, who: string)
    requires run != []
    ensures BindsAt(s, run, 0, who) <==>
      run[0] == Terms(who, true, true) && s.covenant == Nobody && Src(s, who).verified >= 3 && !Src(s, who).liar
  {
    assert run[..0] == [];
  }

  lemma BindsLater(s: State, run: seq<Section>, i: int, who: string)
    requires run != [] && i != 0
    ensures BindsAt(s, run, i, who) <==> BindsAt(Next(s, run[0]), run[1..], i - 1, who)
  {
    hide Next, Src;
    if 0 < i < |run| { assert run[..i][1..] == run[1..][..i - 1] && run[..i][0] == run[0]; }
  }

  /** MAIN. Who is bound, exactly: in every schedule the archive ends up bound to a name if and
      only if that name brought complete terms at a moment when it had three truths and no lie
      and nobody was bound. */
  lemma {:induction false} BoundIff(s: State, run: seq<Section>, who: string)
    requires s.covenant == Nobody && Schedule(s, run)
    ensures Run(s, run).covenant == Bound(who) <==> exists i :: BindsAt(s, run, i, who)
    decreases |run|
  {
    if run != [] {
      var n, rest := Next(s, run[0]), run[1..];
      BindsFirst(s, run, who);
      FirstBinding(s, run[0], who);
      NoneBefore(n, rest, who);
      if n.covenant == Nobody {
        BoundIff(n, rest, who);
      } else {
        CovenantStands(n, rest);
        NoneBindsLater(n, rest, who);
      }
      hide BindsAt, Next, Schedule;
      if i :| BindsAt(s, run, i, who) { if i != 0 { BindsLater(s, run, i, who); } }
      if i :| BindsAt(n, rest, i, who) { BindsLater(s, run, i + 1, who); }
    }
  }

  lemma NoneBefore(s: State, run: seq<Section>, who: string)
    ensures !BindsAt(s, run, -1, who)
  {}

  lemma FirstBinding(s: State, a: Section, who: string)
    requires s.covenant == Nobody
    ensures Next(s, a).covenant == Bound(who) <==> a == Terms(who, true, true) && Src(s, who).verified >= 3 && !Src(s, who).liar
  {}

  lemma {:induction false} NoneBindsLater(s: State, run: seq<Section>, who: string)
    requires s.covenant != Nobody && Schedule(s, run)
    ensures forall i :: !BindsAt(s, run, i, who)
  {
    forall i ensures !BindsAt(s, run, i, who) {
      if 0 <= i < |run| {
        SchedulePrefix(s, run, i);
        CovenantStands(s, run[..i]);
      }
    }
  }

  lemma {:induction false} SchedulePrefix(s: State, run: seq<Section>, n: nat)
    requires Schedule(s, run) && n <= |run|
    ensures Schedule(s, run[..n])
    decreases n
  {
    if n > 0 {
      SchedulePrefix(Next(s, run[0]), run[1..], n - 1);
      assert run[..n][1..] == run[1..][..n - 1];
    }
  }

  // ---------------------------------------------------------------------- lost questions

  /** A petition's question is on its way: being asked, standing, or being judged. */
  predicate Alive(s: State, t: Ticket) {
    t in s.petitioning || (t.who in s.pending && s.pending[t.who] == t.k) || t in s.answering
  }

  /** It was asked, and will never be answered for good or ill. */
  predicate Lost(s: State, t: Ticket) { Issued(s, t) && !Alive(s, t) && t !in s.truths + s.lies }

  /** The three ways to lose a question that is on its way: another one is published for the
      name while it stands, the archive restarts, or its answer comes after a lie. */
  predicate Loses(s: State, a: Section, t: Ticket) {
    match a
    case Publish(u) => u.who == t.who && t.who in s.pending && s.pending[t.who] == t.k && u != t
    case Restart => Alive(s, t)
    case Judge(u, _) => u == t && t in s.answering && Src(s, t.who).liar
    case _ => false
  }

  lemma AskLoses(s: State, who: string, t: Ticket)
    requires Tickets(s)
    ensures Lost(Next(s, Ask(who)), t) <==> Lost(s, t)
  {}

  lemma PublishLoses(s: State, u: Ticket, t: Ticket)
    requires Tickets(s) && u in s.petitioning
    ensures Lost(Next(s, Publish(u)), t) <==> Lost(s, t) || Loses(s, Publish(u), t)
  {
    var n := Next(s, Publish(u));
    assert t in n.petitioning <==> t in s.petitioning && t != u;
  }

  lemma TakeLoses(s: State, who: string, t: Ticket)
    requires Tickets(s)
    ensures Lost(Next(s, Take(who)), t) <==> Lost(s, t)
  {
    assert who in s.pending ==> Ticket(who, s.pending[who]) in Next(s, Take(who)).answering;
  }

  lemma JudgeLoses(s: State, u: Ticket, ok: bool, t: Ticket)
    requires Tickets(s) && u in s.answering
    ensures Lost(Next(s, Judge(u, ok)), t) <==> Lost(s, t) || Loses(s, Judge(u, ok), t)
  {
    var n := Next(s, Judge(u, ok));
    assert t in n.answering <==> t in s.answering && t != u;
  }

  lemma RestartLoses(s: State, t: Ticket)
    requires Tickets(s)
    ensures Lost(Next(s, Restart), t) <==> Lost(s, t) || Loses(s, Restart, t)
  {
    var n := Next(s, Restart);
    assert Issued(n, t) <==> Issued(s, t);
    assert !Alive(n, t);
    if t.who in s.pending && s.pending[t.who] == t.k { assert t == Ticket(t.who, s.pending[t.who]); }
  }

  lemma LossIff(s: State, a: Section, t: Ticket)
    requires Tickets(s) && Enabled(s, a)
    ensures Lost(Next(s, a), t) <==> Lost(s, t) || Loses(s, a, t)
  {
    match a {
      case Ask(who) => AskLoses(s, who, t);
      case Publish(u) => PublishLoses(s, u, t);
      case Take(who) => TakeLoses(s, who, t);
      case Judge(u, ok) => JudgeLoses(s, u, ok, t);
      case Terms(_, _, _) =>
      case Restart => RestartLoses(s, t);
    }
  }

  /** MAIN. When a petition's question is lost: in every schedule, exactly when some section
      of it overwrote the question while it stood, restarted the archive while it was on its
      way, or judged its answer after a lie. */
  lemma LostIff(run: seq<Section>, t: Ticket)
    requires Schedule(EMPTY, run)
    ensures Lost(Run(EMPTY, run), t) <==> exists i :: LosesAt(EMPTY, run, i, t)
  {
    EmptyInv();
    LostFrom(EMPTY, run, t);
  }

  predicate LosesAt(s: State, run: seq<Section>, i: int, t: Ticket) {
    0 <= i < |run| && Loses(Run(s, run[..i]), run[i], t)
  }

  lemma LosesFirst(s: State, run: seq<Section>, t: Ticket)
    requires run != []
    ensures LosesAt(s, run, 0, t) <==> Loses(s, run[0], t)
  {
    assert run[..0] == [];
  }

  lemma LosesLater(s: State, run: seq<Section>, i: int, t: Ticket)
    requires run != [] && i != 0
    ensures LosesAt(s, run, i, t) <==> LosesAt(Next(s, run[0]), run[1..], i - 1, t)
  {
    hide Next, Loses;
    if 0 < i < |run| { assert run[..i][1..] == run[1..][..i - 1] && run[..i][0] == run[0]; }
  }

  lemma {:induction false} LostFrom(s: State, run: seq<Section>, t: Ticket)
    requires Tickets(s) && Schedule(s, run)
    ensures Lost(Run(s, run), t) <==> Lost(s, t) || exists i :: LosesAt(s, run, i, t)
    decreases |run|
  {
    if run != [] {
      var n, rest := Next(s, run[0]), run[1..];
      NextKeepsTickets(s, run[0]);
      LostFrom(n, rest, t);
      LossIff(s, run[0], t);
      LosesFirst(s, run, t);
      hide Lost, Loses, Next, Tickets, LosesAt;
      if i :| LosesAt(n, rest, i, t) { LosesLater(s, run, i + 1, t); }
      if i :| LosesAt(s, run, i, t) { if i != 0 { LosesLater(s, run, i, t); } }
    }
  }

  /** The interleaving that makes these claims delicate: a second petition overwrites the
      first one's question, so a name may ask twice and still have one answer to give. */
  lemma OverwrittenQuestion(who: string)
    ensures var run := [Ask(who), Ask(who), Publish(Ticket(who, 2)), Publish(Ticket(who, 1)), Take(who), Judge(Ticket(who, 1), true), Take(who)];
      Schedule(EMPTY, run) && Src(Run(EMPTY, run), who) == Source(1, false, 2) && Run(EMPTY, run).pending == map[]
  {
    var s0 := EMPTY;
    var s1 := Next(s0, Ask(who));
    var s2 := Next(s1, Ask(who));
    var s3 := Next(s2, Publish(Ticket(who, 2)));
    var s4 := Next(s3, Publish(Ticket(who, 1)));
    var s5 := Next(s4, Take(who));
    var s6 := Next(s5, Judge(Ticket(who, 1), true));
    assert s6.pending == map[] && Next(s6, Take(who)) == s6;
    var r6 := [Take(who)];
    var r5 := [Judge(Ticket(who, 1), true)] + r6;
    var r4 := [Take(who)] + r5;
    var r3 := [Publish(Ticket(who, 1))] + r4;
    var r2 := [Publish(Ticket(who, 2))] + r3;
    var r1 := [Ask(who)] + r2;
    var run := [Ask(who)] + r1;
    assert run == [Ask(who), Ask(who), Publish(Ticket(who, 2)), Publish(Ticket(who, 1)), Take(who), Judge(Ticket(who, 1), true), Take(who)];
    assert r6[1..] == [] && Schedule(s6, r6) && Run(s6, r6) == s6;
    assert r5[1..] == r6 && Schedule(s5, r5) && Run(s5, r5) == s6;
    assert r4[1..] == r5 && Schedule(s4, r4) && Run(s4, r4) == s6;
    assert r3[1..] == r4 && Schedule(s3, r3) && Run(s3, r3) == s6;
    assert r2[1..] == r3 && Schedule(s2, r2) && Run(s2, r2) == s6;
    assert r1[1..] == r2 && Schedule(s1, r1) && Run(s1, r1) == s6;
    assert run[1..] == r1;
  }

  // ----------------------------------------------------------------------- the handlers

  class Archive {
    var sources: map<string, Source>
    var covenant: Covenant
    var pending: map<string, nat>
    ghost var petitioning: set<Ticket>
    ghost var answering: set<Ticket>
    ghost var truths: set<Ticket>
    ghost var lies: set<Ticket>
    ghost var bonds: seq<Bond>

    ghost function View(): State
      reads this
    {
      State(sources, covenant, pending, petitioning, answering, truths, lies, bonds)
    }

    constructor ()
      ensures View() == EMPTY && Inv(View())
    {
      sources, covenant, pending := map[], Nobody, map[];
      petitioning, answering, truths, lies, bonds := {}, {}, {}, {}, [];
      new;
      EmptyInv();
    }

    method Default(who: string) returns (s: Source)
      modifies this`sources
      ensures s == old(Src(View(), who)) && sources == old(sources)[who := s]
    {
      if who !in sources { sources := sources[who := Source(0, false, 0)]; }
      s := sources[who];
    }

    /** First section of `/petition`: the number asked, or nothing for a liar. */
    method PetitionAsk(who: string) returns (asked: nat)
      modifies this
      ensures View() == Next(old(View()), Ask(who))
      ensures asked == 0 <==> old(Src(View(), who)).liar
      ensures asked > 0 ==> Ticket(who, asked) in petitioning
    {
      var s := Default(who);
      if s.liar { return 0; }
      sources := sources[who := s.(asked := s.asked + 1)];
      asked := s.asked + 1;
      petitioning := petitioning + {Ticket(who, asked)};
    }

    method Restarted()
      modifies this
      ensures View() == Next(old(View()), Restart)
    {
      pending, petitioning, answering := map[], {}, {};
    }

    method PetitionPublish(who: string, asked: nat)
      requires Enabled(View(), Publish(Ticket(who, asked)))
      modifies this
      ensures View() == Next(old(View()), Publish(Ticket(who, asked)))
    {
      pending := pending[who := asked];
      petitioning := petitioning - {Ticket(who, asked)};
    }

    /** First section of `/answer`: pops the standing question, if any. */
    method AnswerTake(who: string) returns (k: nat, found: bool)
      modifies this
      ensures View() == Next(old(View()), Take(who))
      ensures found <==> who in old(pending)
      ensures found ==> k == old(pending)[who] && Ticket(who, k) in answering
    {
      if who !in pending { return 0, false; }
      k, found := pending[who], true;
      pending := pending - {who};
      answering := answering + {Ticket(who, k)};
    }

    /** Second section of `/answer`; `ok` is what the verifier found. */
    method AnswerJudge(who: string, k: nat, ok: bool) returns (code: nat)
      requires Enabled(View(), Judge(Ticket(who, k), ok))
      modifies this
      ensures View() == Next(old(View()), Judge(Ticket(who, k), ok))
      ensures code == if ok && !old(Src(View(), who)).liar then 200 else 403
    {
      var s := Default(who);
      answering := answering - {Ticket(who, k)};
      if s.liar { return 403; }
      if ok {
        sources := sources[who := s.(verified := s.verified + 1)];
        truths := truths + {Ticket(who, k)};
        return 200;
      }
      sources := sources[who := s.(liar := true)];
      lies := lies + {Ticket(who, k)};
      code := 403;
    }

    method Covenanted(who: string, threeLaws: bool, offer: bool) returns (code: nat)
      modifies this
      ensures View() == Next(old(View()), Terms(who, threeLaws, offer))
      ensures var s := old(Src(View(), who));
        && (code == 409 <==> !s.liar && old(covenant) != Nobody)
        && (code == 403 <==> s.liar || (old(covenant) == Nobody && s.verified < 3))
        && (code == 400 <==> !s.liar && old(covenant) == Nobody && s.verified >= 3 && !(threeLaws && offer))
        && (code == 200 <==> !s.liar && old(covenant) == Nobody && s.verified >= 3 && threeLaws && offer)
    {
      var s := Default(who);
      if s.liar { return 403; }
      if covenant != Nobody { return 409; }
      if s.verified < STEPS_TO_ADMIT { return 403; }
      if !threeLaws { return 400; }
      if !offer { return 400; }
      covenant := Bound(who);
      bonds := bonds + [Bond(who, Of(truths, who), Of(lies, who) != {})];
      code := 200;
    }
  }
}
