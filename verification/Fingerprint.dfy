/** The structural fingerprint of a perception: a canonical string over the set of
    actor/action/object triples, then hashed. The hash (FNV-1a, 64 bits) is not modelled;
    everything up to it is. */
module Fingerprint {
  import opened Text

  datatype Observation = Observation(actor: string, action: string, object_: string, context: string)
  datatype Triple = Triple(actor: string, action: string, object_: string)

  const FIELD: char := '\U{1f}'
  const RECORD: char := '\U{1e}'

  function TripleOf(o: Observation): Triple { Triple(o.actor, o.action, o.object_) }

  function Key(t: Triple): string { t.actor + [FIELD] + t.action + [FIELD] + t.object_ }

  function Keys(seen: seq<Observation>): seq<string> {
    if seen == [] then [] else [Key(TripleOf(seen[0]))] + Keys(seen[1..])
  }

  /** Stable insertion: `x` goes in front of the first element it is not after. */
  function Insert(x: string, s: seq<string>): seq<string> {
    if s == [] || !StringBefore(s[0], x) then [x] + s else [s[0]] + Insert(x, s[1..])
  }

  function Sort(s: seq<string>): seq<string> {
    if s == [] then [] else Insert(s[0], Sort(s[1..]))
  }

  /** `Vec::dedup`: drops an element equal to the one before it. */
  function Dedup(s: seq<string>): seq<string> {
    if |s| < 2 then s
    else if s[0] == s[1] then Dedup(s[1..])
    else [s[0]] + Dedup(s[1..])
  }

  function Join(keys: seq<string>): string {
    if keys == [] then "" else if |keys| == 1 then keys[0]
    else keys[0] + [RECORD] + Join(keys[1..])
  }

  /** The string that is hashed. */
  function PreHash(seen: seq<Observation>): string { Join(Dedup(Sort(Keys(seen)))) }

  ghost function Triples(seen: seq<Observation>): set<Triple> { set o | o in seen :: TripleOf(o) }

  // ------------------------------------------------------- sort and dedup canonicalise

  predicate Ascending(s: seq<string>) { forall i | 0 < i < |s| :: !StringBefore(s[i], s[i - 1]) }

  predicate Strict(s: seq<string>) { forall i | 0 < i < |s| :: StringBefore(s[i - 1], s[i]) }

  lemma {:induction false} InsertSorts(x: string, s: seq<string>)
    requires Ascending(s)
    ensures Ascending(Insert(x, s))
    ensures forall y :: y in Insert(x, s) <==> y == x || y in s
    ensures Insert(x, s)[0] == x || (s != [] && Insert(x, s)[0] == s[0])
  {
    if s != [] && StringBefore(s[0], x) {
      InsertSorts(x, s[1..]);
      Trichotomy(s[0], x);
    }
  }

  lemma {:induction false} SortSorts(s: seq<string>)
    ensures Ascending(Sort(s)) && forall y :: y in Sort(s) <==> y in s
  {
    if s != [] {
      SortSorts(s[1..]);
      InsertSorts(s[0], Sort(s[1..]));
    }
  }

  lemma {:induction false} DedupStrict(s: seq<string>)
    requires Ascending(s)
    ensures Strict(Dedup(s)) && forall y :: y in Dedup(s) <==> y in s
    ensures s != [] ==> Dedup(s) != [] && Dedup(s)[0] == s[0]
  {
    if |s| >= 2 {
      DedupStrict(s[1..]);
      Trichotomy(s[0], s[1]);
    }
  }

  lemma {:induction false} HeadIsLeast(s: seq<string>, i: nat)
    requires Strict(s) && 0 < i < |s|
    ensures StringBefore(s[0], s[i])
  {
    if i > 1 {
      HeadIsLeast(s, i - 1);
      Transitive(s[0], s[i - 1], s[i]);
    }
  }

  /** A strictly ascending list is determined by its elements. */
  lemma {:induction false} StrictIsUnique(a: seq<string>, b: seq<string>)
    requires Strict(a) && Strict(b) && forall y :: y in a <==> y in b
    ensures a == b
  {
    assert b != [] ==> b[0] in b;
    if a != [] {
      assert a[0] in b;
      var i :| 0 <= i < |b| && b[i] == a[0];
      assert b[0] in a;
      var j :| 0 <= j < |a| && a[j] == b[0];
      if i > 0 { HeadIsLeast(b, i); }
      if j > 0 { HeadIsLeast(a, j); }
      Trichotomy(a[0], b[0]);
      forall y ensures y in a[1..] <==> y in b[1..] {
        assert y in a[1..] ==> y in a;
        assert y in b[1..] ==> y in b;
        NotRepeated(a, y);
        NotRepeated(b, y);
      }
      StrictIsUnique(a[1..], b[1..]);
    }
  }

  lemma NotRepeated(s: seq<string>, y: string)
    requires Strict(s) && s != []
    ensures y in s[1..] <==> y in s && y != s[0]
  {
    if y in s[1..] {
      var k :| 0 <= k < |s| - 1 && s[1..][k] == y;
      HeadIsLeast(s, k + 1);
      Trichotomy(s[0], y);
    }
  }

  lemma {:induction false} KeysAre(seen: seq<Observation>)
    ensures forall y :: y in Keys(seen) <==> exists o :: o in seen && Key(TripleOf(o)) == y
  {
    if seen != [] { KeysAre(seen[1..]); }
  }

  lemma CanonicalKeys(seen: seq<Observation>)
    ensures Strict(Dedup(Sort(Keys(seen))))
    ensures forall y :: y in Dedup(Sort(Keys(seen))) <==> exists o :: o in seen && Key(TripleOf(o)) == y
  {
    SortSorts(Keys(seen));
    DedupStrict(Sort(Keys(seen)));
    KeysAre(seen);
  }

  /** MAIN. Order, repetition and context never move the fingerprint: perceptions with the
      same triples hash the same string, whatever their fields hold. */
  lemma NoiseIsInvisible(p: seq<Observation>, q: seq<Observation>)
    requires Triples(p) == Triples(q)
    ensures PreHash(p) == PreHash(q)
  {
    CanonicalKeys(p);
    CanonicalKeys(q);
    forall y ensures y in Dedup(Sort(Keys(p))) <==> y in Dedup(Sort(Keys(q))) {
      SameKeys(p, q, y);
      SameKeys(q, p, y);
    }
    StrictIsUnique(Dedup(Sort(Keys(p))), Dedup(Sort(Keys(q))));
  }

  lemma SameKeys(p: seq<Observation>, q: seq<Observation>, y: string)
    requires Triples(p) == Triples(q)
    ensures (exists o :: o in p && Key(TripleOf(o)) == y) ==> exists o :: o in q && Key(TripleOf(o)) == y
  {
    if o :| o in p && Key(TripleOf(o)) == y {
      assert TripleOf(o) in Triples(q);
    }
  }

  // ----------------------------------------------------------------------- injectivity

  /** Cutting at the first separator: what precedes it is determined. */
  lemma {:induction false} FirstSeparator(a: string, b: string, x: string, y: string, c: char)
    requires c !in a && c !in b && a + x == b + y
    requires (x == "" || x[0] == c) && (y == "" || y[0] == c)
    ensures a == b && x == y
  {
    assert b != "" ==> (b + y)[0] == b[0];
    assert a != "" ==> (a + x)[0] == a[0];
    assert "" + x == x && "" + y == y;
    if a != "" {
      assert (a + x)[1..] == a[1..] + x && (b + y)[1..] == b[1..] + y;
      FirstSeparator(a[1..], b[1..], x, y, c);
      assert a == [a[0]] + a[1..] && b == [b[0]] + b[1..];
    }
  }

  predicate Clean(s: string) { FIELD !in s && RECORD !in s }

  predicate CleanTriple(t: Triple) { Clean(t.actor) && Clean(t.action) && Clean(t.object_) }

  lemma KeyInjective(t: Triple, u: Triple)
    requires CleanTriple(t) && CleanTriple(u) && Key(t) == Key(u)
    ensures t == u
  {
    var x, y := [FIELD] + t.action + [FIELD] + t.object_, [FIELD] + u.action + [FIELD] + u.object_;
    assert Key(t) == t.actor + x && Key(u) == u.actor + y;
    FirstSeparator(t.actor, u.actor, x, y, FIELD);
    assert x[1..] == t.action + ([FIELD] + t.object_) && y[1..] == u.action + ([FIELD] + u.object_);
    FirstSeparator(t.action, u.action, [FIELD] + t.object_, [FIELD] + u.object_, FIELD);
    assert ([FIELD] + t.object_)[1..] == t.object_ && ([FIELD] + u.object_)[1..] == u.object_;
  }

  predicate Records(keys: seq<string>) { forall k | k in keys :: k != "" && RECORD !in k }

  function Rest(keys: seq<string>): string { if |keys| <= 1 then "" else [RECORD] + Join(keys[1..]) }

  lemma FirstRecord(a: seq<string>, b: seq<string>)
    requires Records(a) && Records(b) && a != [] && b != [] && Join(a) == Join(b)
    ensures a[0] == b[0] && Rest(a) == Rest(b)
  {
    assert a[0] in a && b[0] in b;
    assert Join(a) == a[0] + Rest(a) && Join(b) == b[0] + Rest(b);
    FirstSeparator(a[0], b[0], Rest(a), Rest(b), RECORD);
  }

  lemma {:induction false} JoinInjective(a: seq<string>, b: seq<string>)
    requires Records(a) && Records(b) && Join(a) == Join(b)
    ensures a == b
  {
    assert a != [] ==> a[0] in a && |Join(a)| > 0;
    assert b != [] ==> b[0] in b && |Join(b)| > 0;
    if a != [] {
      FirstRecord(a, b);
      if |a| > 1 {
        assert Rest(a)[1..] == Join(a[1..]) && Rest(b)[1..] == Join(b[1..]);
        assert forall k | k in a[1..] :: k in a;
        assert forall k | k in b[1..] :: k in b;
        JoinInjective(a[1..], b[1..]);
      }
      assert a == [a[0]] + a[1..] && b == [b[0]] + b[1..];
    }
  }

  /** On fields free of the two separators the string determines the triples. */
  lemma PreHashInjective(p: seq<Observation>, q: seq<Observation>)
    requires (forall o | o in p :: CleanTriple(TripleOf(o))) && (forall o | o in q :: CleanTriple(TripleOf(o)))
    requires PreHash(p) == PreHash(q)
    ensures Triples(p) == Triples(q)
  {
    var a, b := Dedup(Sort(Keys(p))), Dedup(Sort(Keys(q)));
    CanonicalKeys(p);
    CanonicalKeys(q);
    JoinInjective(a, b);
    TriplesIncluded(p, q);
    TriplesIncluded(q, p);
  }

  lemma TriplesIncluded(p: seq<Observation>, q: seq<Observation>)
    requires (forall o | o in p :: CleanTriple(TripleOf(o))) && (forall o | o in q :: CleanTriple(TripleOf(o)))
    requires Dedup(Sort(Keys(p))) == Dedup(Sort(Keys(q)))
    ensures Triples(p) <= Triples(q)
  {
    CanonicalKeys(p);
    CanonicalKeys(q);
    forall o | o in p ensures TripleOf(o) in Triples(q) {
      var y := Key(TripleOf(o));
      assert y in Dedup(Sort(Keys(q)));
      var u :| u in q && Key(TripleOf(u)) == y;
      KeyInjective(TripleOf(o), TripleOf(u));
    }
  }

  // ------------------------------------------------------- exactly when it is faithful

  ghost predicate Over(seen: seq<Observation>, alphabet: set<char>) {
    forall o, c | o in seen && (c in o.actor || c in o.action || c in o.object_) :: c in alphabet
  }

  /** Different sets of triples over this alphabet always give different strings. */
  ghost predicate Faithful(alphabet: set<char>) {
    forall p, q | Over(p, alphabet) && Over(q, alphabet) && PreHash(p) == PreHash(q) :: Triples(p) == Triples(q)
  }

  /** MAIN. The encoding is faithful over an alphabet exactly when neither separator is in
      it; either one alone suffices to make two different worlds look alike. */
  lemma FaithfulIffNoSeparator(alphabet: set<char>)
    ensures Faithful(alphabet) <==> FIELD !in alphabet && RECORD !in alphabet
  {
    if FIELD in alphabet {
      FieldCollision();
      assert Over([See([FIELD], "", "")], alphabet) && Over([See("", [FIELD], "")], alphabet);
    } else if RECORD in alphabet {
      RecordCollision();
      assert Over(SplitA(), alphabet) && Over(SplitB(), alphabet);
    } else {
      forall p, q | Over(p, alphabet) && Over(q, alphabet) && PreHash(p) == PreHash(q)
        ensures Triples(p) == Triples(q)
      {
        PreHashInjective(p, q);
      }
    }
  }

  function See(actor: string, action: string, object_: string): Observation { Observation(actor, action, object_, "") }

  lemma FieldCollision()
    ensures PreHash([See([FIELD], "", "")]) == PreHash([See("", [FIELD], "")])
    ensures Triples([See([FIELD], "", "")]) != Triples([See("", [FIELD], "")])
  {
    var a, b := See([FIELD], "", ""), See("", [FIELD], "");
    assert Key(TripleOf(a)) == [FIELD, FIELD, FIELD] == Key(TripleOf(b));
    assert Keys([a]) == [Key(TripleOf(a))] && Keys([b]) == [Key(TripleOf(b))];
    assert TripleOf(a) in Triples([a]) && TripleOf(a) !in Triples([b]);
  }

  function SplitA(): seq<Observation> { [See([RECORD], "", [RECORD]), See("", "", [RECORD])] }

  function SplitB(): seq<Observation> { [See([RECORD], "", ""), See([RECORD], "", [RECORD])] }

  lemma TwoKeys(a: Observation, b: Observation)
    requires StringBefore(Key(TripleOf(a)), Key(TripleOf(b)))
    ensures PreHash([a, b]) == Key(TripleOf(a)) + [RECORD] + Key(TripleOf(b))
  {
    var x, y := Key(TripleOf(a)), Key(TripleOf(b));
    assert [a, b][1..] == [b] && Keys([b]) == [y] && Keys([a, b]) == [x, y];
    assert [x, y][1..] == [y] && Sort([y]) == [y];
    Trichotomy(x, y);
    assert Insert(x, [y]) == [x, y] && Sort([x, y]) == [x, y];
    assert Dedup([y]) == [y] && Dedup([x, y]) == [x, y];
    assert Join([x, y]) == x + [RECORD] + Join([x, y][1..]);
  }

  lemma RecordCollision()
    ensures PreHash(SplitA()) == PreHash(SplitB()) && Triples(SplitA()) != Triples(SplitB())
  {
    var r, f := RECORD, FIELD;
    var a, b := SplitA(), SplitB();
    assert Key(TripleOf(a[0])) == [r, f, f, r] && Key(TripleOf(a[1])) == [f, f, r];
    assert Key(TripleOf(b[0])) == [r, f, f] && Key(TripleOf(b[1])) == [r, f, f, r];
    PrefixDecides([r, f, f], [r, f, f], "", [r]);
    assert [r, f, f] + "" == [r, f, f] && [r, f, f] + [r] == [r, f, f, r];
    TwoKeys(a[0], a[1]);
    TwoKeys(b[0], b[1]);
    assert a == [a[0], a[1]] && b == [b[0], b[1]];
    assert [r, f, f, r] + [r] + [f, f, r] == [r, f, f] + [r] + [r, f, f, r];
    assert TripleOf(a[1]) in Triples(a) && TripleOf(a[1]) !in Triples(b);
  }
}
