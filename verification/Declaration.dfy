/** A declared surface: how its readings fall into buckets, and the acts that move it. */
module Declaration {

  datatype Value = Quantity(n: real) | Mode(word: string)

  /** What the state command said, extracted and typed. */
  type Reading = map<string, Value>

  datatype Condition =
    | Eq(field: string, value: Value)
    | AtMost(field: string, bound: real)
    | AtLeast(field: string, bound: real)

  datatype Bucket = Bucket(name: string, conditions: seq<Condition>)

  datatype Actuator = Actuator(actions: set<string>, buckets: seq<Bucket>)

  /** `condition_matches`: a field of the wrong kind, or none, matches no bound. */
  predicate ConditionMatches(c: Condition, r: Reading) {
    c.field in r && match c
      case Eq(field, value) => r[field] == value
      case AtMost(field, bound) => r[field].Quantity? && r[field].n <= bound
      case AtLeast(field, bound) => r[field].Quantity? && r[field].n >= bound
  }

  predicate Matches(b: Bucket, r: Reading) { forall c | c in b.conditions :: ConditionMatches(c, r) }

  function FirstMatch(buckets: seq<Bucket>, r: Reading): string {
    if buckets == [] then "unknown"
    else if Matches(buckets[0], r) then buckets[0].name
    else FirstMatch(buckets[1..], r)
  }

  /** `bucket_of`: ordered rules, first match wins. */
  function BucketOf(a: Actuator, r: Reading): string { FirstMatch(a.buckets, r) }

  function Names(a: Actuator): set<string> { set b | b in a.buckets :: b.name }

  predicate Blank(s: string) { forall c | c in s :: c in " \t\n\r" }

  /** The part of `valid_actuator` that speaks of buckets: distinct names, each with the
      action that restores it, and exactly the last one unconditioned. */
  predicate ValidActuator(a: Actuator) {
    && a.buckets != []
    && (forall i, j | 0 <= i < j < |a.buckets| :: a.buckets[i].name != a.buckets[j].name)
    && forall i | 0 <= i < |a.buckets| ::
         && !Blank(a.buckets[i].name)
         && a.buckets[i].name in a.actions
         && (a.buckets[i].conditions == [] <==> i == |a.buckets| - 1)
  }

  lemma {:induction false} FirstMatchIs(buckets: seq<Bucket>, r: Reading, i: nat)
    requires i < |buckets| && Matches(buckets[i], r) && forall j | 0 <= j < i :: !Matches(buckets[j], r)
    ensures FirstMatch(buckets, r) == buckets[i].name
  {
    if i > 0 { FirstMatchIs(buckets[1..], r, i - 1); }
  }

  function FirstIndex(buckets: seq<Bucket>, r: Reading): (i: nat)
    requires buckets != [] && buckets[|buckets| - 1].conditions == []
    ensures i < |buckets| && Matches(buckets[i], r) && forall j | 0 <= j < i :: !Matches(buckets[j], r)
  {
    if Matches(buckets[0], r) then 0 else 1 + FirstIndex(buckets[1..], r)
  }

  /** A valid declaration has a closed revert map: every reading whatever falls in one
      bucket, the first that matches and no other, and an action restores it. */
  lemma RevertMapIsClosed(a: Actuator, r: Reading)
    requires ValidActuator(a)
    ensures BucketOf(a, r) in Names(a) && BucketOf(a, r) in a.actions && BucketOf(a, r) != ""
    ensures forall i | 0 <= i < |a.buckets| ::
              BucketOf(a, r) == a.buckets[i].name
              <==> Matches(a.buckets[i], r) && forall j | 0 <= j < i :: !Matches(a.buckets[j], r)
  {
    var k := FirstIndex(a.buckets, r);
    FirstMatchIs(a.buckets, r, k);
    assert a.buckets[k] in a.buckets;
    assert !Blank(a.buckets[k].name);
  }

  lemma NamesAreActions(a: Actuator, name: string)
    requires ValidActuator(a) && name in Names(a)
    ensures name in a.actions && name != ""
  {
    var i :| 0 <= i < |a.buckets| && a.buckets[i].name == name;
    assert !Blank(a.buckets[i].name);
  }

  /** A ladder of thresholds on one field, with a catch-all at the end. */
  function Ladder(field: string, names: seq<string>, bounds: seq<real>, rest: string): seq<Bucket>
    requires |names| == |bounds|
  {
    if names == [] then [Bucket(rest, [])]
    else [Bucket(names[0], [AtMost(field, bounds[0])])] + Ladder(field, names[1..], bounds[1..], rest)
  }

  predicate OnRung(bounds: seq<real>, n: real, i: int) { 0 <= i < |bounds| && n <= bounds[i] && (i > 0 ==> bounds[i - 1] < n) }

  /** Such a ladder cuts the quantities into intervals, closed above: a reading falls in the
      bucket of the interval it lies in, in the catch-all beyond the last bound, and there too
      when the field is missing or is no quantity. */
  lemma {:induction false} LadderCuts(field: string, names: seq<string>, bounds: seq<real>, rest: string, r: Reading)
    requires |names| == |bounds| && forall i, j | 0 <= i < j < |bounds| :: bounds[i] < bounds[j]
    ensures field in r && r[field].Quantity? ==>
      forall i | OnRung(bounds, r[field].n, i) :: FirstMatch(Ladder(field, names, bounds, rest), r) == names[i]
    ensures field in r && r[field].Quantity? && (forall b | b in bounds :: b < r[field].n) ==>
      FirstMatch(Ladder(field, names, bounds, rest), r) == rest
    ensures field !in r || !r[field].Quantity? ==> FirstMatch(Ladder(field, names, bounds, rest), r) == rest
    decreases |names|
  {
    var ladder := Ladder(field, names, bounds, rest);
    if names == [] {
      assert Matches(ladder[0], r);
    } else {
      var c := AtMost(field, bounds[0]);
      assert ladder[0].conditions == [c] && c in [c] && ladder[1..] == Ladder(field, names[1..], bounds[1..], rest);
      assert Matches(ladder[0], r) <==> ConditionMatches(c, r);
      LadderCuts(field, names[1..], bounds[1..], rest, r);
      if field in r && r[field].Quantity? {
        var n := r[field].n;
        assert bounds[0] in bounds && forall b | b in bounds[1..] :: b in bounds;
        forall i | OnRung(bounds, n, i) ensures FirstMatch(ladder, r) == names[i] {
          if i > 0 {
            assert bounds[0] <= bounds[i - 1] < n;
            assert OnRung(bounds[1..], n, i - 1);
          }
        }
      }
    }
  }

  /** The reading with every quantity's sign turned round. */
  function Negated(r: Reading): Reading {
    map field | field in r :: match r[field] case Quantity(n) => Quantity(-n) case Mode(_) => r[field]
  }

  /** Lower bounds are upper bounds seen in a mirror. */
  lemma BoundsMirror(field: string, bound: real, r: Reading)
    ensures ConditionMatches(AtLeast(field, bound), r) <==> ConditionMatches(AtMost(field, -bound), Negated(r))
  {}
}
