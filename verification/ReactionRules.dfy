/** Standing reaction rules: minted on consent, re-minted on newer consent, switched by hand,
    and taken down when a human reverts what they did. */
module ReactionRules {
  import opened Wrappers

  datatype Trigger = Away | Back

  /** `policy` is the number of `pol-<hex>`, and `id` that of the eight hexadecimal digits. */
  datatype ReactionRule = ReactionRule(id: nat, subject: string, trigger: Trigger, surface: string, act: string,
                                       enabled: bool, policy: Option<nat>)

  /** Both edges of a presence policy, as a theory proposes them. */
  datatype Proposal = Proposal(subject: string, surface: string, onAway: string, onBack: string)

  const SALT: int := 0x9e37_79b9
  const WORD: int := 0x1_0000_0000

  /** A new row's id: the clock salted by the row count, in 32 bits. */
  function NewId(now: int, count: nat): nat { (now * SALT + count) % WORD }

  function PolicyId(now: int): nat { now * SALT % WORD }

  // -------------------------------------------------------------------- finding a row

  predicate Fills(r: ReactionRule, subject: string, trigger: Trigger, surface: string) {
    r.subject == subject && r.trigger == trigger && r.surface == surface
  }

  function SlotFrom(rules: seq<ReactionRule>, i: nat, subject: string, trigger: Trigger, surface: string): (k: Option<nat>)
    requires i <= |rules|
    ensures k.Some? ==> i <= k.value < |rules| && Fills(rules[k.value], subject, trigger, surface)
    decreases |rules| - i
  {
    if i == |rules| then None
    else if Fills(rules[i], subject, trigger, surface) then Some(i)
    else SlotFrom(rules, i + 1, subject, trigger, surface)
  }

  /** The first row for this subject, trigger and surface. */
  function Slot(rules: seq<ReactionRule>, subject: string, trigger: Trigger, surface: string): (k: Option<nat>)
    ensures k.Some? ==> k.value < |rules| && Fills(rules[k.value], subject, trigger, surface)
  {
    SlotFrom(rules, 0, subject, trigger, surface)
  }

  function FirstFrom(rules: seq<ReactionRule>, i: nat, id: nat): (k: Option<nat>)
    requires i <= |rules|
    ensures k.Some? ==> i <= k.value < |rules| && rules[k.value].id == id
    decreases |rules| - i
  {
    if i == |rules| then None else if rules[i].id == id then Some(i) else FirstFrom(rules, i + 1, id)
  }

  /** The first row with this id. */
  function First(rules: seq<ReactionRule>, id: nat): (k: Option<nat>)
    ensures k.Some? ==> k.value < |rules| && rules[k.value].id == id
  {
    FirstFrom(rules, 0, id)
  }

  lemma {:induction false} SlotFromIs(rules: seq<ReactionRule>, i: nat, subject: string, trigger: Trigger, surface: string)
    requires i <= |rules|
    ensures var k := SlotFrom(rules, i, subject, trigger, surface);
      forall j | i <= j < if k.Some? then k.value else |rules| :: !Fills(rules[j], subject, trigger, surface)
    decreases |rules| - i
  {
    if i < |rules| { SlotFromIs(rules, i + 1, subject, trigger, surface); }
  }

  /** No row before the slot found fills it; if none is found, no row at all. */
  lemma SlotIs(rules: seq<ReactionRule>, subject: string, trigger: Trigger, surface: string)
    ensures var k := Slot(rules, subject, trigger, surface);
      forall j | 0 <= j < if k.Some? then k.value else |rules| :: !Fills(rules[j], subject, trigger, surface)
  {
    SlotFromIs(rules, 0, subject, trigger, surface);
  }

  // ----------------------------------------------------------------------- operations

  /** `mint`: one rule per subject, trigger and surface; minting again re-points the act and
      re-enables. Its texts are taken as trimmed. */
  function Mint(rules: seq<ReactionRule>, subject: string, trigger: Trigger, surface: string, act: string, now: int): seq<ReactionRule> {
    if subject == "" || surface == "" || act == "" then rules
    else match Slot(rules, subject, trigger, surface)
      case Some(k) => rules[k := rules[k].(act := act, enabled := true)]
      case None => rules + [ReactionRule(NewId(now, |rules|), subject, trigger, surface, act, true, None)]
  }

  /** Somebody else's standing rule holds the surface. */
  predicate Occupied(rules: seq<ReactionRule>, p: Proposal) {
    exists i :: 0 <= i < |rules| && rules[i].enabled && rules[i].surface == p.surface && rules[i].subject != p.subject
  }

  predicate Mintable(rules: seq<ReactionRule>, p: Proposal) {
    p.subject != "" && p.surface != "" && p.onAway != "" && p.onBack != "" && !Occupied(rules, p)
  }

  /** `mint_policy`: both edges, then one policy id on the rows with their ids. */
  function MintPolicy(rules: seq<ReactionRule>, p: Proposal, now: int): seq<ReactionRule> {
    if !Mintable(rules, p) then rules else Paired(MintEdges(rules, p, now), p, now)
  }

  function MintEdges(rules: seq<ReactionRule>, p: Proposal, now: int): seq<ReactionRule> {
    Mint(Mint(rules, p.subject, Away, p.surface, p.onAway, now), p.subject, Back, p.surface, p.onBack, now)
  }

  /** The id of the row an edge was minted into. */
  function EdgeId(rules: seq<ReactionRule>, p: Proposal, trigger: Trigger): Option<nat> {
    match Slot(rules, p.subject, trigger, p.surface) case Some(k) => Some(rules[k].id) case None => None
  }

  function Paired(rules: seq<ReactionRule>, p: Proposal, now: int): seq<ReactionRule> {
    seq(|rules|, i requires 0 <= i < |rules| =>
      if Some(rules[i].id) == EdgeId(rules, p, Away) || Some(rules[i].id) == EdgeId(rules, p, Back)
      then rules[i].(policy := Some(PolicyId(now))) else rules[i])
  }

  /** `set_enabled`: one row, by id. */
  function SetEnabled(rules: seq<ReactionRule>, id: nat, on: bool): seq<ReactionRule> {
    match First(rules, id) case Some(k) => rules[k := rules[k].(enabled := on)] case None => rules
  }

  /** A reversal of rule `id` takes down its first row and, with it, the rest of its policy. */
  predicate TakenDown(rules: seq<ReactionRule>, id: nat, k: nat)
    requires k < |rules|
  {
    match First(rules, id)
    case None => false
    case Some(f) => k == f || (rules[f].policy.Some? && rules[k].policy == rules[f].policy)
  }

  /** `disable_reverted`. */
  function DisableReverted(rules: seq<ReactionRule>, id: nat): seq<ReactionRule> {
    seq(|rules|, i requires 0 <= i < |rules| => if TakenDown(rules, id, i) then rules[i].(enabled := false) else rules[i])
  }

  // ----------------------------------------------------------------------------- ids

  function Ids(rules: seq<ReactionRule>): seq<nat> {
    seq(|rules|, i requires 0 <= i < |rules| => rules[i].id)
  }

  predicate UniqueIds(rules: seq<ReactionRule>) { forall i, j | 0 <= i < j < |rules| :: rules[i].id != rules[j].id }

  /** One rule per subject, trigger and surface. */
  predicate OneEach(rules: seq<ReactionRule>) {
    forall i, j | 0 <= i < j < |rules| :: !Fills(rules[j], rules[i].subject, rules[i].trigger, rules[i].surface)
  }

  lemma MintGrows(rules: seq<ReactionRule>, subject: string, trigger: Trigger, surface: string, act: string, now: int)
    ensures Ids(rules) <= Ids(Mint(rules, subject, trigger, surface, act, now))
    ensures OneEach(rules) ==> OneEach(Mint(rules, subject, trigger, surface, act, now))
  {
    SlotIs(rules, subject, trigger, surface);
  }

  /** The two edges of a policy are minted at one moment, and still have different ids. */
  lemma EdgesDiffer(now: int, count: nat)
    ensures NewId(now, count) != NewId(now, count + 1)
  {}

  /** No operation ever changes or drops an id. */
  lemma OperationsKeepIds(rules: seq<ReactionRule>, p: Proposal, now: int, id: nat, on: bool)
    ensures Ids(rules) <= Ids(MintPolicy(rules, p, now))
    ensures Ids(SetEnabled(rules, id, on)) == Ids(rules) == Ids(DisableReverted(rules, id))
  {
    hide Slot, TakenDown, EdgeId, OneEach;
    if Mintable(rules, p) {
      var away := Mint(rules, p.subject, Away, p.surface, p.onAway, now);
      MintGrows(rules, p.subject, Away, p.surface, p.onAway, now);
      MintGrows(away, p.subject, Back, p.surface, p.onBack, now);
      assert Ids(Paired(MintEdges(rules, p, now), p, now)) == Ids(MintEdges(rules, p, now));
    }
  }

  /** One rule per slot stays one, whatever is minted, switched or reverted. */
  lemma OperationsKeepOneEach(rules: seq<ReactionRule>, p: Proposal, now: int, id: nat, on: bool)
    requires OneEach(rules)
    ensures OneEach(MintPolicy(rules, p, now)) && OneEach(SetEnabled(rules, id, on)) && OneEach(DisableReverted(rules, id))
  {
    hide Slot, TakenDown, EdgeId, Mint;
    var away := Mint(rules, p.subject, Away, p.surface, p.onAway, now);
    MintGrows(rules, p.subject, Away, p.surface, p.onAway, now);
    MintGrows(away, p.subject, Back, p.surface, p.onBack, now);
  }

  /** The row that a mint fills is there afterwards, on, and does what was last asked. */
  lemma MintFills(rules: seq<ReactionRule>, subject: string, trigger: Trigger, surface: string, act: string, now: int)
    requires subject != "" && surface != "" && act != "" && OneEach(rules)
    ensures var next := Mint(rules, subject, trigger, surface, act, now);
      exists k :: 0 <= k < |next| && Fills(next[k], subject, trigger, surface) && next[k].enabled && next[k].act == act
  {
    var next, k := Mint(rules, subject, trigger, surface, act, now), Slot(rules, subject, trigger, surface);
    var at := if k.Some? then k.value else |rules|;
    assert next[at].act == act;
  }

  // ------------------------------------------------------------- the operations, row by row

  predicate FirstToFill(rules: seq<ReactionRule>, subject: string, trigger: Trigger, surface: string, k: int) {
    && 0 <= k < |rules| && rules[k].subject == subject && rules[k].trigger == trigger && rules[k].surface == surface
    && forall j | 0 <= j < k :: !(rules[j].subject == subject && rules[j].trigger == trigger && rules[j].surface == surface)
  }

  predicate FirstOf(rules: seq<ReactionRule>, id: nat, k: int) {
    0 <= k < |rules| && rules[k].id == id && forall j | 0 <= j < k :: rules[j].id != id
  }

  lemma {:induction false} FirstFromIs(rules: seq<ReactionRule>, i: nat, id: nat)
    requires i <= |rules|
    ensures var k := FirstFrom(rules, i, id);
      forall j | i <= j < if k.Some? then k.value else |rules| :: rules[j].id != id
    decreases |rules| - i
  {
    if i < |rules| { FirstFromIs(rules, i + 1, id); }
  }

  lemma FirstIs(rules: seq<ReactionRule>, id: nat, k: nat)
    ensures First(rules, id) == Some(k) <==> FirstOf(rules, id, k)
  {
    FirstFromIs(rules, 0, id);
  }

  /** A mint with nothing blank re-points and re-enables the one row that holds its place, or
      puts a new one at the end; a blank one does nothing. No other row is touched. */
  lemma MintDoes(rules: seq<ReactionRule>, subject: string, trigger: Trigger, surface: string, act: string, now: int)
    ensures var next := Mint(rules, subject, trigger, surface, act, now);
      if subject == "" || surface == "" || act == "" then next == rules
      else
        && |rules| <= |next|
        && (forall k | 0 <= k < |rules| ::
              next[k] == if FirstToFill(rules, subject, trigger, surface, k) then rules[k].(act := act, enabled := true) else rules[k])
        && ((exists k :: FirstToFill(rules, subject, trigger, surface, k)) ==> next[|rules|..] == [])
        && ((forall k :: !FirstToFill(rules, subject, trigger, surface, k)) ==>
              next[|rules|..] == [ReactionRule((now * 0x9e37_79b9 + |rules|) % 0x1_0000_0000, subject, trigger, surface, act, true, None)])
  {
    SlotIs(rules, subject, trigger, surface);
    var k := Slot(rules, subject, trigger, surface);
    if k.Some? {
      assert FirstToFill(rules, subject, trigger, surface, k.value);
      assert forall j :: FirstToFill(rules, subject, trigger, surface, j) ==> j == k.value;
    }
  }

  /** A policy with a blank text, or for a surface where somebody else's rule stands, is refused
      and leaves no trace; every other is minted. */
  lemma PolicyRefusedIff(rules: seq<ReactionRule>, p: Proposal, now: int)
    requires OneEach(rules)
    ensures var refused := p.subject == "" || p.surface == "" || p.onAway == "" || p.onBack == ""
              || exists i :: 0 <= i < |rules| && rules[i].enabled && rules[i].surface == p.surface && rules[i].subject != p.subject;
      && (refused ==> MintPolicy(rules, p, now) == rules)
      && (refused <==> !Mintable(rules, p))
      && (!refused ==> exists k :: 0 <= k < |MintPolicy(rules, p, now)| && Fills(MintPolicy(rules, p, now)[k], p.subject, Away, p.surface))
  {
    if Mintable(rules, p) { BothEdges(rules, p, now); }
    hide MintEdges, Paired;
  }

  /** The switch sets one row, the first with this number. */
  lemma SwitchDoes(rules: seq<ReactionRule>, id: nat, on: bool, k: nat)
    requires k < |rules|
    ensures |SetEnabled(rules, id, on)| == |rules|
    ensures SetEnabled(rules, id, on)[k] == if FirstOf(rules, id, k) then rules[k].(enabled := on) else rules[k]
  {
    FirstIs(rules, id, k);
  }

  /** A reversal disables the first row with this number and every row of its policy, and
      nothing else. */
  lemma RevertDoes(rules: seq<ReactionRule>, id: nat, k: nat)
    requires k < |rules|
    ensures |DisableReverted(rules, id)| == |rules|
    ensures DisableReverted(rules, id)[k] ==
      if exists f :: FirstOf(rules, id, f) && (k == f || (rules[f].policy.Some? && rules[k].policy == rules[f].policy))
      then rules[k].(enabled := false) else rules[k]
  {
    var first := First(rules, id);
    if first.Some? { FirstIs(rules, id, first.value); }
    forall f | FirstOf(rules, id, f) ensures first == Some(f) { FirstIs(rules, id, f); }
  }

  // ----------------------------------------------------------------- waking a disabled rule

  predicate Down(rules: seq<ReactionRule>, k: nat) { k < |rules| && !rules[k].enabled }

  /** A valid mint finds this very row. */
  predicate MintWakes(rules: seq<ReactionRule>, subject: string, trigger: Trigger, surface: string, act: string, k: nat) {
    subject != "" && surface != "" && act != "" && Slot(rules, subject, trigger, surface) == Some(k)
  }

  predicate PolicyWakes(rules: seq<ReactionRule>, p: Proposal, k: nat) {
    Mintable(rules, p) && (Slot(rules, p.subject, Away, p.surface) == Some(k) || Slot(rules, p.subject, Back, p.surface) == Some(k))
  }

  lemma MintWakesIff(rules: seq<ReactionRule>, subject: string, trigger: Trigger, surface: string, act: string, now: int, k: nat)
    requires Down(rules, k)
    ensures Down(Mint(rules, subject, trigger, surface, act, now), k) <==> !MintWakes(rules, subject, trigger, surface, act, k)
  {}

  /** A mint leaves the other edge's row where it was, or puts it at the end. */
  lemma OtherSlot(rules: seq<ReactionRule>, p: Proposal, act: string, now: int, k: nat)
    requires k < |rules|
    ensures Slot(Mint(rules, p.subject, Away, p.surface, act, now), p.subject, Back, p.surface) == Some(k)
            <==> Slot(rules, p.subject, Back, p.surface) == Some(k)
  {
    var after := Mint(rules, p.subject, Away, p.surface, act, now);
    SameSlot(rules, after, 0, p.subject, Back, p.surface, k);
  }

  lemma {:induction false} SameSlot(a: seq<ReactionRule>, b: seq<ReactionRule>, i: nat, subject: string, trigger: Trigger, surface: string, k: nat)
    requires i <= |a| <= |b| && k < |a|
    requires forall j | 0 <= j < |a| :: Fills(a[j], subject, trigger, surface) <==> Fills(b[j], subject, trigger, surface)
    ensures SlotFrom(a, i, subject, trigger, surface) == Some(k) <==> SlotFrom(b, i, subject, trigger, surface) == Some(k)
    decreases |a| - i
  {
    if i < |a| { SameSlot(a, b, i + 1, subject, trigger, surface, k); }
  }

  lemma PolicyWakesIff(rules: seq<ReactionRule>, p: Proposal, now: int, k: nat)
    requires Down(rules, k)
    ensures Down(MintPolicy(rules, p, now), k) <==> !PolicyWakes(rules, p, k)
  {
    if Mintable(rules, p) {
      var first := Mint(rules, p.subject, Away, p.surface, p.onAway, now);
      MintWakesIff(rules, p.subject, Away, p.surface, p.onAway, now, k);
      OtherSlot(rules, p, p.onAway, now, k);
      if Down(first, k) { MintWakesIff(first, p.subject, Back, p.surface, p.onBack, now, k); }
      assert MintPolicy(rules, p, now)[k].enabled == MintEdges(rules, p, now)[k].enabled;
    }
  }

  // --------------------------------------------------------------------- one policy, one object

  /** The two halves of a policy are on or off together. */
  predicate Whole(rules: seq<ReactionRule>) {
    forall i, j | 0 <= i < |rules| && 0 <= j < |rules| && rules[i].policy.Some? && rules[i].policy == rules[j].policy ::
      rules[i].enabled == rules[j].enabled
  }

  /** A row whose policy has another half in the other state. */
  predicate PeerDiffers(rules: seq<ReactionRule>, k: nat, on: bool)
    requires k < |rules|
  {
    exists i :: 0 <= i < |rules| && i != k && rules[k].policy.Some? && rules[i].policy == rules[k].policy && rules[i].enabled != on
  }

  lemma UpdateIsWhole(rules: seq<ReactionRule>, k: nat, r: ReactionRule)
    requires Whole(rules) && k < |rules| && r.policy == rules[k].policy
    ensures Whole(rules[k := r]) <==> !PeerDiffers(rules, k, r.enabled)
  {
    var next := rules[k := r];
    if PeerDiffers(rules, k, r.enabled) {
      var i :| 0 <= i < |rules| && i != k && rules[k].policy.Some? && rules[i].policy == rules[k].policy && rules[i].enabled != r.enabled;
      assert next[i] == rules[i] && next[k] == r;
    }
  }

  lemma RevertKeepsWhole(rules: seq<ReactionRule>, id: nat)
    requires Whole(rules)
    ensures Whole(DisableReverted(rules, id))
  {
    hide First;
    var next := DisableReverted(rules, id);
    forall i, j | 0 <= i < |rules| && 0 <= j < |rules| && next[i].policy.Some? && next[i].policy == next[j].policy
      ensures next[i].enabled == next[j].enabled {
      assert rules[i].enabled == rules[j].enabled;
    }
  }

  lemma SwitchIsWhole(rules: seq<ReactionRule>, id: nat, on: bool)
    requires Whole(rules)
    ensures Whole(SetEnabled(rules, id, on)) <==> (First(rules, id).Some? ==> !PeerDiffers(rules, First(rules, id).value, on))
  {
    hide First, Whole, PeerDiffers;
    var f := First(rules, id);
    if f.Some? { UpdateIsWhole(rules, f.value, rules[f.value].(enabled := on)); }
  }

  lemma MintIsWhole(rules: seq<ReactionRule>, subject: string, trigger: Trigger, surface: string, act: string, now: int)
    requires Whole(rules)
    ensures Whole(Mint(rules, subject, trigger, surface, act, now)) <==>
      forall k | 0 <= k < |rules| && MintWakes(rules, subject, trigger, surface, act, k) :: !PeerDiffers(rules, k, true)
  {
    hide Slot, PeerDiffers;
    var k := Slot(rules, subject, trigger, surface);
    if k.Some? && subject != "" && surface != "" && act != "" {
      UpdateIsWhole(rules, k.value, rules[k.value].(act := act, enabled := true));
      assert MintWakes(rules, subject, trigger, surface, act, k.value);
    }
  }

  /** A row that is no edge of this policy carries its number and is off. */
  predicate NumberTaken(rules: seq<ReactionRule>, p: Proposal, now: int) {
    exists i :: 0 <= i < |rules| && rules[i].policy == Some(PolicyId(now)) && !rules[i].enabled
                && !Fills(rules[i], p.subject, Away, p.surface) && !Fills(rules[i], p.subject, Back, p.surface)
  }

  /** What `mint_policy` leaves: its two edges, on, paired and as asked, and all else as it was. */
  lemma PolicyMinted(rules: seq<ReactionRule>, p: Proposal, now: int, i: nat)
    requires Mintable(rules, p) && OneEach(rules) && UniqueIds(MintPolicy(rules, p, now)) && i < |MintPolicy(rules, p, now)|
    ensures var r := MintPolicy(rules, p, now)[i];
      if Fills(r, p.subject, Away, p.surface) then r.enabled && r.policy == Some(PolicyId(now)) && r.act == p.onAway
      else if Fills(r, p.subject, Back, p.surface) then r.enabled && r.policy == Some(PolicyId(now)) && r.act == p.onBack
      else i < |rules| && r == rules[i]
  {
    var away := Mint(rules, p.subject, Away, p.surface, p.onAway, now);
    var edges := MintEdges(rules, p, now);
    MintGrows(rules, p.subject, Away, p.surface, p.onAway, now);
    MintGrows(away, p.subject, Back, p.surface, p.onBack, now);
    SlotIs(rules, p.subject, Away, p.surface);
    SlotIs(away, p.subject, Back, p.surface);
    var j, k := Slot(edges, p.subject, Away, p.surface), Slot(edges, p.subject, Back, p.surface);
    SlotIs(edges, p.subject, Away, p.surface);
    SlotIs(edges, p.subject, Back, p.surface);
    assert Fills(edges[i], p.subject, Away, p.surface) ==> j == Some(i);
    assert Fills(edges[i], p.subject, Back, p.surface) ==> k == Some(i);
    var next := MintPolicy(rules, p, now);
    hide Mint, MintEdges, Slot;
    assert forall a | 0 <= a < |next| :: next[a].id == edges[a].id;
  }

  lemma PolicyIsWhole(rules: seq<ReactionRule>, p: Proposal, now: int)
    requires Whole(rules) && OneEach(rules) && UniqueIds(MintPolicy(rules, p, now))
    ensures Whole(MintPolicy(rules, p, now)) <==> !(Mintable(rules, p) && NumberTaken(rules, p, now))
  {
    if Mintable(rules, p) {
      hide Mint, MintPolicy, Slot, OneEach, UniqueIds, Mintable;
      var next := MintPolicy(rules, p, now);
      forall i | 0 <= i < |next|
        ensures var r := next[i];
          if Fills(r, p.subject, Away, p.surface) then r.enabled && r.policy == Some(PolicyId(now)) && r.act == p.onAway
          else if Fills(r, p.subject, Back, p.surface) then r.enabled && r.policy == Some(PolicyId(now)) && r.act == p.onBack
          else i < |rules| && r == rules[i] {
        PolicyMinted(rules, p, now, i);
      }
      BothEdges(rules, p, now);
      if NumberTaken(rules, p, now) {
        var i :| 0 <= i < |rules| && rules[i].policy == Some(PolicyId(now)) && !rules[i].enabled
                 && !Fills(rules[i], p.subject, Away, p.surface) && !Fills(rules[i], p.subject, Back, p.surface);
        OthersStay(rules, p, now, i);
        var k :| 0 <= k < |next| && Fills(next[k], p.subject, Away, p.surface);
        assert next[k].enabled != next[i].enabled && next[k].policy == next[i].policy;
      }
    }
  }

  lemma BothEdges(rules: seq<ReactionRule>, p: Proposal, now: int)
    requires Mintable(rules, p)
    ensures exists k :: 0 <= k < |MintPolicy(rules, p, now)| && Fills(MintPolicy(rules, p, now)[k], p.subject, Away, p.surface)
  {
    var away, edges := Mint(rules, p.subject, Away, p.surface, p.onAway, now), MintEdges(rules, p, now);
    var k := Slot(rules, p.subject, Away, p.surface);
    var at := if k.Some? then k.value else |rules|;
    assert Fills(away[at], p.subject, Away, p.surface);
    assert Fills(edges[at], p.subject, Away, p.surface);
    assert Fills(MintPolicy(rules, p, now)[at], p.subject, Away, p.surface);
  }

  lemma OthersStay(rules: seq<ReactionRule>, p: Proposal, now: int, i: nat)
    requires i < |rules| && Mintable(rules, p) && OneEach(rules) && UniqueIds(MintPolicy(rules, p, now))
    requires !Fills(rules[i], p.subject, Away, p.surface) && !Fills(rules[i], p.subject, Back, p.surface)
    ensures i < |MintPolicy(rules, p, now)| && MintPolicy(rules, p, now)[i] == rules[i]
  {
    assert Ids(rules) <= Ids(MintPolicy(rules, p, now)) by { OperationsKeepIds(rules, p, now, 0, true); }
    assert Fills(MintPolicy(rules, p, now)[i], rules[i].subject, rules[i].trigger, rules[i].surface);
    PolicyMinted(rules, p, now, i);
  }

  /** The first policy of all: two rows, both on. */
  lemma FirstPolicy(p: Proposal, now: int)
    requires p.subject != "" && p.surface != "" && p.onAway != "" && p.onBack != ""
    ensures MintPolicy([], p, now) ==
      [ReactionRule(NewId(now, 0), p.subject, Away, p.surface, p.onAway, true, Some(PolicyId(now))),
       ReactionRule(NewId(now, 1), p.subject, Back, p.surface, p.onBack, true, Some(PolicyId(now)))]
  {
    var away := ReactionRule(NewId(now, 0), p.subject, Away, p.surface, p.onAway, true, None);
    var back := ReactionRule(NewId(now, 1), p.subject, Back, p.surface, p.onBack, true, None);
    assert Mint([], p.subject, Away, p.surface, p.onAway, now) == [away];
    SlotIs([away], p.subject, Back, p.surface);
    assert Slot([away], p.subject, Back, p.surface).None?;
    assert MintEdges([], p, now) == [away, back];
    hide Mint, MintEdges;
    SlotIs([away, back], p.subject, Away, p.surface);
    SlotIs([away, back], p.subject, Back, p.surface);
    EdgesDiffer(now, 0);
    EdgesPair(away, back, p, now);
  }

  lemma EdgesPair(away: ReactionRule, back: ReactionRule, p: Proposal, now: int)
    requires Fills(away, p.subject, Away, p.surface) && Fills(back, p.subject, Back, p.surface) && away.id != back.id
    ensures Paired([away, back], p, now) == [away.(policy := Some(PolicyId(now))), back.(policy := Some(PolicyId(now)))]
  {
    SlotIs([away, back], p.subject, Away, p.surface);
    SlotIs([away, back], p.subject, Back, p.surface);
    assert [away, back][0] == away && [away, back][1] == back;
    assert Slot([away, back], p.subject, Away, p.surface) == Some(0);
    assert Slot([away, back], p.subject, Back, p.surface) == Some(1);
  }
}
