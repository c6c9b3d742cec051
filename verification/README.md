# The Familiar, verified

A Dafny model of the parts of The Familiar whose guarantees run over whole histories rather than single
calls, with proofs of those guarantees. `dafny verify dfyconfig.toml` checks all of it.

Code that updates state in the source is a class here, with the source's loops and branches; each method is
proved against a specification function, and the theorems are about that function over every run. Where the
code does not do what its comments or its purpose promise, the code is modelled as it is, a lemma gives an
input that shows it, and the exact condition under which the promise holds is proved.

## What is modelled

**The actuation loop** (`Declaration.dfy`, `ReactionRules.dfy`, `Actuation.dfy`, `Record.dfy`, `Reactions.dfy`,
`RuleReversals.dfy`, `Hand.dfy`). The familiar acts on surfaces a human has declared, then reads the reaction
from hands (a poll of the device) or from words (an answer, a dismissed question). `Declaration` is the bucket
grammar and its closed revert map, `ReactionRules` the store of standing rules with its minting, switching and
reverting. `Actuation` is a state machine of single-surface steps (poll, heed, tend a need, tend a rule, the CLI
hand, a partner's act) over a world that includes the physical devices, the rules, and humans who move the one
and mint and switch the others; heeding an explicit yes mints a policy. `Hand` is the code, proved to take
exactly those steps. Two histories are kept apart: the trials the code writes, and the record of what happened
to each act; the accounting theorem is that they match. `Record` says what every step does, from outside: which
events it adds, and what it leaves remembered, moved, at rest, tried and ruled. `Reactions` says when words and
polls end an act, and `RuleReversals` what a reversal does to a rule. Assumptions, all stated in `Honest` and
`Sane`: surfaces have distinct names and valid declarations, a bucket-named action leads to its bucket, no
action is called `state`, the parameters are clamped. An act command that reports success took effect, and one
that does not had none. Every step is atomic.

**The self-improvement search** (`Search.dfy`). `run_execution` judges every pending candidate under arbitrary
verdicts, with its generation cap.

**The theorize cursor** (`Theorize.dfy`). Observations are consumed as evidence in commit order, with retry when
the provider fails and re-entry through a cite.

**The structural fingerprint** (`Fingerprint.dfy`, on the byte order of `Text.dfy`). Everything up to the hash.

**The calendar** (`Calendar.dfy`). Three copies of civil-from-days against a calendar walked one day at a time,
with the leap rule and month lengths of RFC 3339 (Appendix C and section 5.7) and its printed form
(section 5.6).

**The BLE broker** (`Broker.dfy`). Its refusals in order, its write budget and its pruned sliding window.

**The water heater** (`Heater.dfy`) and **the irrigator** (`Irrigator.dfy`), two simulators of the test world.
Temperatures and shares are reals; the hash-drawn sky and jitter are arbitrary functions.

**The archivist** (`Archivist.dfy`). Petition, answer and covenant under every interleaving of any number of
threads, cut where the source takes and drops its locks.

**The factory** (`Ledger.dfy`, `Converge.dfy`). The append-only ledger whose replay is the state of an order, and
the convergence loop that resumes from it.

## Where the code falls short of a promise

For each: the input that shows it, and the exact condition.

- An action whose label is no bucket makes the poller blame a human, and fail the candidate, for the
  familiar's own act: `Actuation.OwnActBlamed`. Self-debounce holds for a surface exactly when every label of it
  is a bucket (or empty): `Actuation.KnowsItsOwnHand`.
- A "no" whose revert command keeps failing can end in a pass for the same act, although the comment at
  `crates/cycle/src/lib.rs:3420-3421` promises a retry: `Reactions.NoThatPassed`. It does, exactly when a due
  reading comes after the window that is not the first to find the device there: `Reactions.UnhonouredNo`.
- `heed_reactions` is documented as listening inside the reaction window; its code does not look at the
  window. A late no fails the candidate: `Reactions.LateNoCounts`. Words end an act at any time, exactly when
  there are new ones and they are no no, or a no whose revert works: `Reactions.WordsEnd`.
- A partner's act can leave a pending act that no tick ever ends and that blocks its surface: exactly when no
  words that end it are heard and it leads elsewhere than the act did, or no due and healthy reading comes after
  the window: `Reactions.PartnerStrands`, over whole ticks `Hand.TicksStrand`, from the general
  `Reactions.PollingEnds`.
- `mint_policy` is documented as refusing undeclared surfaces and acts (`crates/cycle/src/lib.rs:3152-3154`,
  `3242-3243`); it checks neither: `RuleReversals.UndeclaredIsMinted`. Such a rule acts exactly when its firing
  finds both declared, among the rest: `RuleReversals.FiresIff`.
- A policy is documented as one object, either edge taking down both
  (`crates/kernel/src/reaction_rule.rs:68-70`). The reversal does so; the switch does not:
  `RuleReversals.OneEdgeOff`. The steps that split a policy, exactly: `RuleReversals.HalvesAgree`.
- The comment on the generation cap speaks of roughly six candidates per loop; the bound is seven
  (`Search.PopulationBound`), and attained for every number of roots (`Search.PopulationBoundIsTight`).
- `cmd_spend` takes the last keys in string order for the last days: right exactly up to the year 9999
  (`Calendar.StringOrderIsDayOrder`, which finds the first failing day).
- The fingerprint's separators are not escaped: `Fingerprint.FieldCollision`, `Fingerprint.RecordCollision`;
  it is faithful exactly on alphabets without them: `Fingerprint.FaithfulIffNoSeparator`.
- A prediction made in the rain can be settled by when the ticks happen to fall: exactly when no rain begins
  in its window, and the proof of `Irrigator.TickIndependence` gives the two tick sequences.
- An order planned as witness-only can be commissioned before anything was generated
  (`Ledger.WitnessOnlyGap`), and no other order can: `Ledger.CandidateBeforeCommission`.
- An order can be commissioned on a declaration that matched a proposal since replaced
  (`Ledger.StaleDeclaration`): exactly when the last proposal after the observation differs: `Ledger.StaleIff`.
- After a failed rung "the next legal progress is a new generation" (`crates/workshop/src/ledger.rs:404-405`):
  not after a witness's no (`Ledger.WitnessSaidNo`). A broken iteration can still be commissioned, exactly when
  every planned bench, read and act rung had passed: `Ledger.BrokenMayBeCommissioned`.
- A resumed convergence run forgets its feedback (`Converge.ForgottenFeedbackShows`): it records what one run
  would exactly when the adapter answers the first resumed request alike, or unusably both times:
  `Converge.ResumeAgreesIff`.
- A petition's question can be lost (`Archivist.OverwrittenQuestion`): exactly by a publish while one stands
  for that name, a restart, or an answer judged after a lie: `Archivist.LostIff`.

## Model

| member | source | states |
|---|---|---|
| Declaration.RevertMapIsClosed | crates/kernel/src/actuator.rs:238-245 | Under a valid declaration every reading whatever falls in exactly one bucket, the first that matches and no other, and a declared action restores it |
| Declaration.NamesAreActions | crates/kernel/src/actuator.rs:305-315 | Every bucket of a valid declaration is an action, and none is unnamed |
| Declaration.LadderCuts | crates/kernel/src/actuator.rs:388-400 | Upper bounds in rising order cut the quantities into intervals, closed above; beyond the last bound, or without a quantity, the catch-all applies |
| Declaration.BoundsMirror | crates/kernel/src/actuator.rs:395-398 | A lower bound matches exactly what the negated upper bound matches of the negated reading |
| Actuation.VerdictAccounting | crates/cycle/src/lib.rs:2925-3830 | Over every run of all steps: per surface, acts opened = acts ended (stood, undone, confirmed) + the one that may be open; each ending belongs to an earlier opening of the same act with no other ending between; the trials are exactly a pass per act that stood and a fail per act undone, for acts that name a candidate |
| Actuation.CountsBalance | crates/cycle/src/lib.rs:3042-3144 | In any orderly history, openings on a surface outnumber endings by one exactly when an act is open there |
| Actuation.EndingsHaveOpenings | crates/cycle/src/lib.rs:3051-3064 | No act ends twice, so none gets both a pass and a fail |
| Actuation.NextAccounts | crates/cycle/src/lib.rs:3011-3887 | Every step keeps memory, trials and history in agreement, and every open act undoable |
| Actuation.PollIsTidy | crates/cycle/src/lib.rs:3023-3144 | A poll ends an act as stood or undone with the one trial that calls for, and otherwise leaves it as it was |
| Actuation.HeedIsTidy | crates/cycle/src/lib.rs:3328-3487 | So does the verbal channel |
| Actuation.KnowsItsOwnHand | crates/cycle/src/lib.rs:3067-3091 | Surface by surface, from any reachable world and over any run: the poller never reports more adjustments of a surface than humans have touched it (and one for an initial doubt), whatever happens to the other surfaces, if and only if every action of that surface lands in the bucket it is named after |
| Actuation.UntouchedStretch | crates/cycle/src/lib.rs:3037-3041 | While nobody touches a surface whose bucket is known, it stays known and nothing is reported of it |
| Actuation.NeverMistakesItsOwnHand | crates/cycle/src/lib.rs:3067-3091 | In all runs in which nobody touches a device, every remembered bucket is empty or true and no adjustment is reported, if and only if every declared action lands where its name says |
| Actuation.OwnActBlamed | crates/cycle/src/lib.rs:4926-4929 | Otherwise there is such a run in tick order, whatever poll period and window: polled, tended in the last second before the next poll, and failed by that poll for its own act |
| Actuation.NextIsKnown | crates/cycle/src/lib.rs:3436 | A step reports at most one adjustment of a surface, only to settle a doubt, and only a touch of that surface raises one: the familiar's, a partner's and the CLI's acts and reverts do not |
| Actuation.RejectionIsGivenRest | crates/cycle/src/lib.rs:2812-2814 | On a clock that does not go back, nothing opens on a surface within six hours of any undo there, by hand, words or CLI |
| Actuation.MoveRests | crates/cycle/src/lib.rs:3536-3538 | Only an undo sets the rest, to six hours from now, and an opening had to wait for it |
| Actuation.OtherSurfacesUntouched | crates/cycle/src/lib.rs:3022-3023 | Each step leaves every surface but one alone, in memory, in the device and in the record |
| Actuation.UndoRestores | crates/cycle/src/lib.rs:3416-3436 | A heard no leaves the device in the bucket it was in just before the act was opened, at a step the lemma finds, whatever moved it in between |
| Reactions.UndoAvailable | crates/cycle/src/lib.rs:3563-3567 | Whatever happened before, an open act names a declared action for a bucket other than the one it set, and a no takes it back if that command works |
| Actuation.OpeningStep | crates/cycle/src/lib.rs:3608-3615 | Every open act was opened by some step, on the bucket then read, and has been open since |
| Record.RecordIs | crates/cycle/src/lib.rs:3011-3830 | Over any run from any world an event is in the record exactly if at some step it happens: a due and healthy poll that finds the device elsewhere than remembered, an act asked for where the surface is free, rested and elsewhere, consent by quiet past the window or by words that are no no, a reversal by the device inside the window, by a no that can be honoured or by a different act of the hand, a confirmation by the same act |
| Record.StepRecords | crates/cycle/src/lib.rs:3011-3830 | The same for one step, which adds two events at most, an adjustment and the end of the act |
| Record.ReportsAreSurprises | crates/cycle/src/lib.rs:3063-3144 | Over any run the adjustments reported of a surface are exactly the due and healthy polls that found it elsewhere than was remembered, act open or not, and what is remembered is the last thing read or ordered there |
| Record.StepReports | crates/cycle/src/lib.rs:3063-3090 | One step reports one adjustment exactly when it is such a poll |
| Record.StepLeaves | crates/cycle/src/lib.rs:3011-3887 | After any step each surface remembers the truth if read, else what was ordered, else what it did; a due poll stamps it; its act is open, ended or new, and six hours of rest begin, exactly as the causes say; the device is where it was ordered or touched to |
| Record.StepJudges | crates/cycle/src/lib.rs:2925-3830 | A step writes exactly the one trial its cause calls for, disables a rule exactly when that rule's act is reversed, and mints exactly on an explicit yes with no no beside it, to a proposed policy, where acting is allowed |
| Record.HandDecides | crates/cycle/src/lib.rs:3783-3827 | By hand the very act awaiting its reaction is a confirmation, with no trial, no rule disabled and no rest; any other is a reversal, with the fail or the disabling and six hours of rest; either way the act is closed and device and memory follow; with none open nothing is written |
| Reactions.NoIsHeeded | crates/cycle/src/lib.rs:3413-3486 | A no either undoes the act completely or, when the revert fails, changes nothing at all |
| Reactions.WordsEnd | crates/cycle/src/lib.rs:3338-3352 | At any time, inside the window or after it, words end an act if and only if its thread has new ones and they are no no, or a no whose revert works; a no fails the candidate and anything else passes it |
| Reactions.LateNoCounts | crates/cycle/src/lib.rs:3319-3321 | A run in tick order in which a no, any time after the window, fails the candidate |
| Reactions.PollPasses | crates/cycle/src/lib.rs:3042-3064 | A poll calls an open act consented to exactly when it is due and readable, the window has passed and the device is still, and is remembered, where the act put it |
| Reactions.UnhonouredNo | crates/cycle/src/lib.rs:3418-3434 | Over any run in which every no fails to revert, however often it is retried, and the surface is where the act put it, the candidate is passed in the end if and only if a due and healthy reading comes after the window that is not the first to find the device there |
| Reactions.PollingVerdict | crates/cycle/src/lib.rs:3042-3064 | What readings end stood if the device is where the act put it, and is undone elsewhere |
| Reactions.HeardNoCanPass | crates/cycle/src/lib.rs:3418-3434 | For the one poll after a heard no: it records a pass for that act if and only if the revert failed and the act is ripe |
| Reactions.NoThatPassed | crates/cycle/src/lib.rs:3418-3434 | A run with a tick every hour in which the human said no, the revert was retried and failed at every tick, and the candidate was passed after the window |
| Reactions.PartnerStrands | crates/cycle/src/lib.rs:3883-3885 | Once a partner has moved a surface with an open act into a bucket, any run without a hand or partner on that surface, heeds included and whatever happens elsewhere, ends the act if and only if words that end it are heard, or that is the bucket the act had set and a due and healthy reading comes after the window; until then no need or rule acts there |
| Hand.TicksStrand | crates/cycle/src/lib.rs:4926-4929 | The same over any number of whole ticks, poll, heed, tend and rules, on all surfaces |
| Hand.TicksAreInOrder | crates/cycle/src/lib.rs:4925-4929 | Ticks on a running clock poll each surface before they heed it and heed it before they tend it, which is the order the shown runs assume |
| Hand.NeedActs | crates/cycle/src/lib.rs:3509-3534 | A need acts exactly when it is pursued, began with a human and speaks to a surface; then on the first such surface, with the first act named there, for the newest candidate of its thread |
| Reactions.PollingEnds | crates/cycle/src/lib.rs:3022-3066 | For every run without a hand or partner on the surface, an open act is ended if and only if words heard in it end it or the due and healthy readings do: where the act put it, by the first late reading that is no news; elsewhere, by the first reading of all, if it is news and inside the window |
| Reactions.ReadingOutcome | crates/cycle/src/lib.rs:3037-3145 | One due and healthy poll ends the act exactly when it is the reading that does, and otherwise leaves the surface as read |
| Reactions.LoopLeavesAct | crates/cycle/src/lib.rs:3331-3352 | Nothing else touches a surface with an act open: not a need, a rule, a heed that hears nothing or a no it cannot honour, nor anything done to other surfaces |
| Reactions.WordsEndAct | crates/cycle/src/lib.rs:3345-3487 | Words that end an act end it in that step |
| RuleReversals.ReversalSticks | crates/kernel/src/reaction_rule.rs:279-302 | A rule whose act was reverted, and the rest of its policy, go down in that step and never act again in any run that does not wake them, by the switch or by a mint, including the policy the loop itself mints on an explicit yes; row ids being unique |
| RuleReversals.DownIff | crates/kernel/src/reaction_rule.rs:219-232 | A disabled row stays down in a step if and only if nothing in it wakes that row |
| RuleReversals.RemintedRuleActs | crates/kernel/src/reaction_rule.rs:219-232 | In any world, a disabled rule minted again acts at its next firing, once its surface has rested and has no act open |
| RuleReversals.FiresIff | crates/cycle/src/lib.rs:3644-3690 | A firing acts if and only if the rule is on, its surface and act are declared, the surface has rested with no act open, the guard permits, read and act work, and the world does not already agree |
| RuleReversals.UndeclaredIsMinted | crates/kernel/src/reaction_rule.rs:90-112 | A policy for an undeclared surface is minted, both edges on, and neither ever acts |
| RuleReversals.ReversalDisables | crates/cycle/src/lib.rs:3096-3115 | Any undo of a rule's act, by poll or by CLI, disables in the same step exactly the first row of that id and the rest of its policy |
| RuleReversals.DownNeverActs | crates/kernel/src/reaction_rule.rs:338-345 | A disabled rule opens no act in any run that does not wake it |
| RuleReversals.HalvesAgree | crates/kernel/src/reaction_rule.rs:66-71 | Over any run, the halves of every policy agree after each step if and only if no step splits one: a switch or a single mint against the other half, or a policy number used twice |
| RuleReversals.SplitIff | crates/kernel/src/reaction_rule.rs:262-277 | One step leaves the halves of a policy in different states exactly when it splits one |
| RuleReversals.OneEdgeOff | crates/kernel/src/reaction_rule.rs:262-277 | Switching one edge of a policy just minted off leaves the other on |
| ReactionRules.PolicyMinted | crates/kernel/src/reaction_rule.rs:90-158 | An accepted policy leaves its two edges on, paired under its number and acting as asked, and every other row as it was |
| ReactionRules.PolicyWakesIff | crates/kernel/src/reaction_rule.rs:100-145 | A policy minted enables a disabled row exactly when that row is one of its edges |
| ReactionRules.MintWakesIff | crates/kernel/src/reaction_rule.rs:219-232 | A single mint enables a disabled row exactly when it is the row of its subject, trigger and surface |
| ReactionRules.MintFills | crates/kernel/src/reaction_rule.rs:219-256 | After a mint its subject, trigger and surface have a row, on, with the act last asked |
| ReactionRules.OperationsKeepOneEach | crates/kernel/src/reaction_rule.rs:217-218 | There is at most one rule per subject, trigger and surface, whatever is minted, switched or reverted |
| ReactionRules.EdgesDiffer | crates/kernel/src/reaction_rule.rs:234-242 | The two edges of a policy, minted at one moment, have different ids |
| ReactionRules.RevertKeepsWhole | crates/kernel/src/reaction_rule.rs:288-299 | A reversal never leaves one half of a policy on and the other off |
| ReactionRules.MintDoes | crates/kernel/src/reaction_rule.rs:202-258 | A mint with nothing blank re-points and re-enables the one row of its place or appends a new one, and touches no other |
| ReactionRules.PolicyRefusedIff | crates/kernel/src/reaction_rule.rs:96-116 | A policy is refused, without a trace, exactly when a text is blank or a rule of another subject stands enabled on the surface |
| ReactionRules.SwitchDoes | crates/kernel/src/reaction_rule.rs:262-276 | The switch sets the first row with the number and no other |
| ReactionRules.RevertDoes | crates/kernel/src/reaction_rule.rs:279-303 | A reversal disables exactly the first row with the number and the rows of its policy |
| Hand.Hand.constructor | crates/kernel/src/actuator.rs:433-438 | Starts with nothing remembered and no trial |
| Hand.Hand.PollSurface | crates/cycle/src/lib.rs:3023-3144 | The poll of one surface, branch by branch, with its pacing stamp, trials and rule disabling, equals the specified move |
| Hand.Hand.PollOne | crates/cycle/src/lib.rs:3022-3146 | One surface polled is one step of the machine |
| Hand.Hand.PollActuators | crates/cycle/src/lib.rs:3011-3147 | One call is the run of the poll steps of all surfaces in declared order |
| Hand.Hand.HeedSurface | crates/cycle/src/lib.rs:3328-3487 | The verbal channel on one surface: a policy minted on an explicit yes, undo first on a no, then trial, rest and closing |
| Hand.Hand.HeedOne | crates/cycle/src/lib.rs:3328-3489 | One surface heeded is one step |
| Hand.Hand.HeedReactions | crates/cycle/src/lib.rs:3322-3490 | One call is the run of the heed steps of all surfaces |
| Hand.Hand.TendSurface | crates/cycle/src/lib.rs:3535-3616 | The act path shared by needs and rules: rest, permission, read, skip if agreed, act, open the window |
| Hand.Hand.TendOne | crates/cycle/src/lib.rs:3509-3617 | A pursued need of a human is the step of the surface, act and candidate its words and thread pick, or no step |
| Hand.Hand.TendPicked | crates/cycle/src/lib.rs:3535-3617 | The act picked is one step |
| Hand.Pick | crates/cycle/src/lib.rs:3513-3534 | The first declared surface that the words name together with one of its acts, no earlier one being so named, and the first such act |
| Hand.Hand.TendActuators | crates/cycle/src/lib.rs:3497-3620 | One call is the run of the steps its needs call for, in their order |
| Hand.Hand.FireOne | crates/cycle/src/lib.rs:3644-3726 | One fired rule is one step; its surface and act come from the rule |
| Hand.Hand.TendRules | crates/cycle/src/lib.rs:3626-3729 | One call is the run of the steps of the rules fired |
| Hand.Hand.RunTick | crates/cycle/src/lib.rs:4925-4929 | One tick is the run of its poll, heed, need and rule steps, in that order |
| Hand.Hand.HandSurface | crates/cycle/src/lib.rs:3781-3826 | The CLI hand on an open act: another act undoes it, the same one confirms it without a verdict |
| Hand.Hand.ActuateByHand | crates/cycle/src/lib.rs:3737-3830 | One call is one step, and it is refused exactly for an unknown surface, an unknown act or a failed command |
| Hand.Hand.PartnerRunAct | crates/cycle/src/lib.rs:3863-3887 | One call is one step that changes only the device and the remembered bucket |
| Hand.Hand.DemoteAfterReaction | crates/cycle/src/lib.rs:2936-2952 | A fail trial when the act names a candidate |
| Hand.Hand.CloseActPositive | crates/cycle/src/lib.rs:2986-3004 | A pass trial when the act names a candidate |
| Hand.Hand.Reverted | crates/cycle/src/lib.rs:3096-3125 | An act undone by hand disables its rule or demotes its candidate, never both |
| Search.EveryRunIsLawful | crates/cycle/src/lib.rs:4508-4628 | In every reachable table ids are unique, children keep their lineage below the cap, each candidate has at most one child and is judged at most once |
| Search.PopulationBound | crates/cycle/src/lib.rs:68-73 | The population never exceeds seven times the generation-0 candidates, whatever is decided |
| Search.PopulationBoundIsTight | crates/cycle/src/lib.rs:68-73 | For every number of roots there is a run that ends with nothing pending and exactly seven candidates each |
| Search.PendingDrains | crates/cycle/src/lib.rs:4514-4541 | Over any run without new roots, reactions falling between the ticks, each tick with room for a trial lowers a measure of pending work by at least one while anything is pending |
| Search.NothingLeft | crates/cycle/src/lib.rs:4530-4537 | After that many such ticks nothing is left to judge |
| Search.JudgePays | crates/cycle/src/lib.rs:4582-4621 | One verdict pays at least one unit of that measure, a bred child included, and adds no population share |
| Search.JudgeCounts | crates/cycle/src/lib.rs:4582-4621 | One verdict moves one row: into promoted for a promotion, mutated for a mutation below the cap, archived for a refusal, rejection, archiving or a mutation at the cap |
| Search.JudgeAllKeeps | crates/cycle/src/lib.rs:4541-4622 | The same over the whole snapshot |
| Search.TickDoes | crates/cycle/src/lib.rs:4541-4622 | One tick, outright: of the generated rows in order, within the work limit, each gets the status its verdict calls for and is recorded once; each unregressed mutation below the cap has one child of the next generation; every other row stays |
| Search.RootKeeps | crates/kernel/src/candidate.rs:36-50 | A new generation-0 candidate is appended, keeps every invariant and brings exactly seven shares |
| Search.DemoteKeeps | crates/cycle/src/lib.rs:2953 | Archiving from outside changes that row alone and keeps them too |
| Search.Searcher.RunExecution | crates/cycle/src/lib.rs:4508-4628 | One call is one tick; the counts it returns are the numbers of verdicts of each kind that were used, and the growth of those statuses in the table |
| Search.Searcher.JudgeOne | crates/cycle/src/lib.rs:4582-4621 | The body of the loop: one trial or refusal, the status the verdict calls for, at most one child |
| Theorize.EvidenceExactlyOnce | crates/cycle/src/lib.rs:1400-1448 | Over any mix of recordings, failures and disposed batches, each numbered world observation at or below the cursor was fresh evidence in exactly one disposed batch, none above it in any, and no batch holds the machine's own rows |
| Theorize.CursorNeverRegresses | crates/cycle/src/lib.rs:1439-1448 | The cursor never regresses |
| Theorize.FailureKeepsBatch | crates/cycle/src/lib.rs:1527-1533 | A failed consult leaves the cursor and its whole batch for the next one |
| Theorize.RejoinOnlyThroughCites | crates/cycle/src/lib.rs:1411-1435 | In any run, what rejoins a batch is a world row that fresh speech names, is not in the fresh window, and was fresh evidence in exactly one batch before |
| Theorize.MaxSeen | crates/cycle/src/lib.rs:1442-1448 | The watermark is at least the cursor and every fresh row's number, and is the cursor or the number of a fresh row |
| Theorize.WindowIsFresh | crates/cycle/src/lib.rs:1404-1410 | The rows between two cursors are exactly the fresh evidence of the batch that moved it |
| Theorize.ConsultDoes | crates/cycle/src/lib.rs:1400-1448 | A due and answered consult that finds material takes exactly the world rows in view past the cursor and exactly the older world rows that speech past the cursor cites; any other moves nothing |
| Theorize.CursorMoves | crates/cycle/src/lib.rs:1439-1448 | The cursor then moves to the last number among the evidence and speech in view |
| Theorize.Theorizer.MaybeTheorize | crates/cycle/src/lib.rs:1400-1539 | The code consumes exactly when due, answered and with material, and otherwise keeps cursor and batches |
| Fingerprint.NoiseIsInvisible | crates/cycle/src/lib.rs:104-109 | Perceptions with the same triples hash the same string, whatever their order, repetitions, contexts and field contents |
| Fingerprint.PreHashInjective | crates/cycle/src/lib.rs:110-118 | On fields free of the separators the string determines the set of triples |
| Fingerprint.FaithfulIffNoSeparator | crates/cycle/src/lib.rs:113-117 | Over an alphabet the string determines the triples if and only if neither separator is in it |
| Fingerprint.CanonicalKeys | crates/cycle/src/lib.rs:115-116 | Sorting and dropping repeats gives the strictly ascending list of exactly the keys present |
| Fingerprint.StrictIsUnique | crates/cycle/src/lib.rs:115-116 | Such a list is determined by its elements |
| Fingerprint.FieldCollision | crates/cycle/src/lib.rs:113 | Two different worlds with one string through the field separator |
| Fingerprint.RecordCollision | crates/cycle/src/lib.rs:117 | And through the record separator |
| Calendar.CivilIsWalk | crates/cli/src/main.rs:2056-2067 | For every day count, negative too, the arithmetic gives the date found by walking day by day from 1970-01-01 |
| Calendar.CivilRoundTrip | crates/cli/src/main.rs:2056-2067 | It is a bijection between all integers and all valid dates, with an exact inverse |
| Calendar.CopiesAgree | crates/cli/src/main.rs:3448-3461 | All three copies agree with one another and with the walked date on every clock the programs read, which is never negative |
| Calendar.SpendBeforeEpoch | crates/cli/src/main.rs:3450-3454 | A remark on the formula: before 1970 it would be right at midnight only |
| Calendar.YmdIsWalk | crates/cli/src/export.rs:269-280 | The export's copy gives the walked date |
| Calendar.TruncatingEra | crates/cli/src/main.rs:2058 | The truncating era equals the flooring one, for negative days too |
| Calendar.YearRecovered | crates/cli/src/export.rs:274 | The divisions by 1460, 36524 and 146096 recover the year of the era from the day of the era |
| Calendar.NextDayCounts | crates/cli/src/export.rs:274-280 | Consecutive dates have consecutive counts across month, leap-day and year ends |
| Calendar.YmdFitsI64 | crates/cli/src/export.rs:269-279 | For every 64-bit clock each intermediate of the computation, named one by one, is in its range and fits a signed 64-bit word |
| Calendar.PrintedForm | crates/cli/src/export.rs:281 | Ten characters, each named, for years of four digits |
| Calendar.PrintsInOrder | crates/cli/src/main.rs:3462 | An earlier date prints before a later one |
| Calendar.StringOrderIsDayOrder | crates/cli/src/main.rs:3465-3468 | The printed days up to a day sort as the days do if and only if its year is at most 9999 |
| Broker.RateBound | tools/ble-broker/broker.py:209-215 | No half-open second, wherever laid, holds more than ceil(rate_hz) transmits let through by the limiter |
| Broker.AcceptedRateBound | tools/ble-broker/broker.py:202-207 | Nor more that were carried out |
| Broker.RateBoundIsTight | tools/ble-broker/broker.py:212-214 | The bound is attained at every rate |
| Broker.RecentOfRecent | tools/ble-broker/broker.py:211-215 | Pruning now loses nothing a later window would hold |
| Broker.AdmitKeepsWindows | tools/ble-broker/broker.py:214-215 | After an admission the pruned list still agrees with the whole history from then on |
| Broker.AdmitKeepsRate | tools/ble-broker/broker.py:212-215 | An admission keeps the property that bounds every second |
| Broker.SecondWithinWindow | tools/ble-broker/broker.py:211 | A second that ends after now holds no more of the past than the limiter's window |
| Broker.Broker.constructor | tools/ble-broker/broker.py:126-134 | A session starts closed with nothing written |
| Broker.Broker.Open | tools/ble-broker/broker.py:138-155 | Opens exactly when one peripheral matches manufacturer and address and the backend connects to it, and else refuses by none, several or the backend's failure, unconnected as before |
| Broker.Broker.Handle | tools/ble-broker/broker.py:159-173 | Every refusal is given exactly under its own condition, none earlier applying: closed, expired, unknown, read rung, another operation, no hex, wrong size, no budget, over the rate; a read or transmit is carried out exactly when none applies and the backend works; reads are cut at the cap; the counts follow |
| Broker.Broker.HandleTransmit | tools/ble-broker/broker.py:183-207 | The same for a transmit: only on the act rung, for the session's own operation, with a frame of 1 to the most bytes and budget left |
| Broker.Broker.Write | tools/ble-broker/broker.py:202-207 | A failed write counts against the rate and not against the budget |
| Broker.Broker.EnforceRate | tools/ble-broker/broker.py:209-215 | Admits exactly when the full history's last second holds fewer than rate_hz |
| Broker.Broker.Close | tools/ble-broker/broker.py:217-220 | Disconnects and forgets nothing |
| Broker.LowerAgrees | tools/ble-broker/broker.py:145 | Two addresses are taken for one exactly when they differ only in the case of letters |
| Heater.EveryRunIsSound | tools/testworld/heater.py:115-152 | Over any requests on a clock that does not go back: 15 <= temperature < 70 + one heating step; no day was ever booked above 86,400 + 299 seconds, nor all days, trimmed ones included, for more than has passed; the days shown are the newest fourteen of that book; no draw of a day has two cold events |
| Heater.StepIsSafe | tools/testworld/heater.py:120-142 | A heating step starts below the setpoint, so the bound is kept |
| Heater.Recovers | tools/testworld/heater.py:119-143 | While no water is drawn, under any schedule and thermostat state, the water warms by at least 18 degrees an hour until within 2.16 of the lowest setpoint, and falls no further below it |
| Heater.StepDoes | tools/testworld/heater.py:119-143 | One step outright: on two degrees below the setpoint, off at it, else as it was; a third of a degree a minute of heat, one part in 108,000 of the excess lost a second; its seconds booked on its day; a draw noted once a day, cold when the water it meets is below forty; never below ambient |
| Heater.SetpointIs | tools/testworld/heater.py:68-79 | The setpoint is that of the first window that covers the time of day, else the base |
| Heater.CoversIs | tools/testworld/heater.py:77 | A window covers the times that lie less far ahead of its start than its end does, midnight between or not |
| Heater.DrawIs | tools/testworld/heater.py:56-65 | The draw in progress is the first whose jittered time has come and whose length has not passed |
| Heater.ControlsAreGranted | tools/testworld/heater.py:257-295 | Over any requests the controls are those of the last write with the token and within the limits, and without one as they were |
| Heater.RequestDoes | tools/testworld/heater.py:257-295 | A refused write leaves no trace; a granted one advances first and sets its one control |
| Heater.CatchUpIsBounded | tools/testworld/heater.py:117 | However long nobody asked, one advance books at most 48 hours and is that of a tank asked 48 hours ago |
| Heater.StepBooks | tools/testworld/heater.py:127-130 | A step books what fits in the day and in the time elapsed |
| Heater.StepKeeps | tools/testworld/heater.py:127-130 | The days kept stay the book's own, the newest all among them |
| Heater.StepEvents | tools/testworld/heater.py:132-140 | A step repeats no cold event |
| Heater.TrimKeepsLastDay | tools/testworld/heater.py:150-152 | Trimming to a hundred keys drops none of the last day |
| Heater.TrimKeeps | tools/testworld/heater.py:147-149 | Trimming leaves exactly the newest fourteen days of all that was ever booked |
| Heater.GridStopIsInvisible | tools/testworld/heater.py:115-149 | Advancing to a moment on the 300-second grid and then on gives the temperature, element state and daily seconds of one advance, within the catch-up and in spite of trimming |
| Heater.GridStopChangesNothing | tools/testworld/heater.py:115-152 | And, for draws noted in order as in every run, the very same state: noted draws, cold events and all |
| Heater.StepsSplit | tools/testworld/heater.py:119-143 | The steps to a grid moment are the first steps beyond it |
| Heater.NewestUpdate | tools/testworld/heater.py:147-149 | Booking the latest day commutes with trimming |
| Heater.Heater.constructor | tools/testworld/heater.py:86-99 | The state of a new installation |
| Heater.Heater.Advanced | tools/testworld/heater.py:115-152 | The loop and the trims compute the specified advance |
| Heater.Heater.Stepped | tools/testworld/heater.py:120-143 | One pass of the loop: thermostat band, heat, loss, draw, floor |
| Heater.Heater.NoteDraw | tools/testworld/heater.py:135-140 | A day's draw is noted once, with its cold event if the water was cold then |
| Heater.Heater.Request | tools/testworld/heater.py:264-295 | A control write needs the token and the range, advances first and then sets its one field |
| Irrigator.FirstStartIs | tools/testworld/irrigator.py:64-73 | The first moment in (a, b] at which rain begins, or none exactly if there is none |
| Irrigator.RainStartsBetween | tools/testworld/irrigator.py:64-73 | The loop finds it |
| Irrigator.WetAfterIs | tools/testworld/irrigator.py:120-131 | The wet moment becomes the latest of its old value, the last rain start and now when it rains |
| Irrigator.ExtraProbe | tools/testworld/irrigator.py:120-132 | The reading is in 0..100; an extra probe never lowers a later one, and changes it exactly when it caught rain that ended since |
| Irrigator.ReadingFalls | tools/testworld/irrigator.py:132 | A hundred when wet, one less for every full 1,728 seconds since, nothing after two days |
| Irrigator.DrySettlement | tools/testworld/irrigator.py:157-167 | A prediction issued while dry is credited only if rain begins in (ts, deadline], burned only if it does not, and settled by any ticks that outlast the window |
| Irrigator.VerdictIs | tools/testworld/irrigator.py:157-167 | For any ticks, dry or wet at issue: credited exactly when rain begins in the window by the last tick or a tick inside the window finds it raining, burned exactly when neither and the last tick is past the deadline, else open |
| Irrigator.SettledOnce | tools/testworld/irrigator.py:158-159 | No tick touches a settled prediction |
| Irrigator.BooksFollowTheSky | tools/testworld/irrigator.py:155-204 | In any run of predictions and ticks on a clock that does not go back, every prediction on the list is what the ticks since its issue make of it: if issued dry, or if rain began in its window, credited only if rain began there, burned only if not, settled by any tick past its deadline; and each source's credits and burns are its settled predictions, trimmed ones included |
| Irrigator.RunSettles | tools/testworld/irrigator.py:155-167 | Each prediction kept is its issue settled over all ticks since |
| Irrigator.TickIndependence | tools/testworld/irrigator.py:161-167 | The verdict is the same for all such ticks if and only if it was dry at issue or rain begins again inside the window |
| Irrigator.TickConserves | tools/testworld/irrigator.py:157-167 | Each source's credits and burns are its settled predictions, before and after a tick, trimmed ones included |
| Irrigator.MarksMatchSettlements | tools/testworld/irrigator.py:160-167 | What a tick adds to a source's books is what it settled of that source's |
| Irrigator.Agent.constructor | tools/testworld/irrigator.py:86-100 | Starts with no predictions and balanced books |
| Irrigator.Agent.Predict | tools/testworld/irrigator.py:356-368 | One call is one step of such a run: an open prediction with its deadline is recorded exactly for a source with fewer than three burns |
| Irrigator.Agent.SoilNow | tools/testworld/irrigator.py:120-132 | The loop over rain starts ends, at the last one, and yields the reading |
| Irrigator.Agent.Decide | tools/testworld/irrigator.py:155-204 | A tick is one step of such a run, probes, and waters exactly below 40 unless a trusted forecast holds it at 15 or more |
| Irrigator.Agent.SettleAll | tools/testworld/irrigator.py:157-167 | The loop settles every prediction of the list and marks its source |
| Irrigator.Agent.SettleOne | tools/testworld/irrigator.py:158-167 | One prediction settled, one mark made |
| Irrigator.Agent.Trim | tools/testworld/irrigator.py:202 | The oldest beyond a hundred are dropped |
| Archivist.AnswersWithinPetitions | tools/testworld/archivist.py:211-254 | In every schedule verified answers plus lies never exceed petitions, each answer being for a petition of its own |
| Archivist.LiarIsFrozen | tools/testworld/archivist.py:239-252 | A liar's record never changes again and, if nobody was bound then, it never will be, whatever other threads still hold |
| Archivist.CovenantIsEarnedOnce | tools/testworld/archivist.py:260-274 | The covenant is written at most once, to a name with answers verified for three distinct petitions and no lie |
| Archivist.CovenantStands | tools/testworld/archivist.py:264-265 | Once written it stands |
| Archivist.RecordIs | tools/testworld/archivist.py:211-254 | In every schedule a name is a liar exactly when some answer of its was found false, and is credited with just the true answers and the petitions before the first |
| Archivist.SectionRecords | tools/testworld/archivist.py:212-254 | The same for one section |
| Archivist.BoundIff | tools/testworld/archivist.py:260-274 | In every schedule the archive ends bound to a name exactly when it brought complete terms at a moment when it had three truths, no lie, and nobody was bound |
| Archivist.OverwrittenQuestion | tools/testworld/archivist.py:223-230 | A schedule in which two petitions leave one answer to give |
| Archivist.LostIff | tools/testworld/archivist.py:211-254 | In every schedule a petition's question is lost if and only if some section overwrote it while it stood for that name, restarted the archive while it was on its way, or judged its answer after a lie |
| Archivist.LossIff | tools/testworld/archivist.py:211-254 | The same for one section, from the state before it |
| Archivist.NextKeepsTickets | tools/testworld/archivist.py:211-254 | Every section keeps each petition in one place |
| Archivist.Archive.PetitionAsk | tools/testworld/archivist.py:212-220 | The first section of a petition, in its lock |
| Archivist.Archive.PetitionPublish | tools/testworld/archivist.py:223-224 | The second, in the other lock |
| Archivist.Archive.AnswerTake | tools/testworld/archivist.py:228-231 | The first section of an answer pops the standing question |
| Archivist.Archive.AnswerJudge | tools/testworld/archivist.py:239-254 | The second records a truth or a lie unless the name has lied since |
| Archivist.Archive.Covenanted | tools/testworld/archivist.py:260-275 | The covenant section answers 403, 409, 400 or binds, each exactly under its own conditions |
| Archivist.Archive.Default | tools/testworld/archivist.py:208-209 | A name is known from its first request on |
| Ledger.Numbering | crates/workshop/src/ledger.rs:324-338 | In every replayable ledger generations are numbered 1, 2, ... without gap or repeat, and each verdict is for the generation before it |
| Ledger.LegalIff | crates/workshop/src/ledger.rs:262-493 | A sequence of events replays exactly when it opens with a valid order and each later event is allowed by the events before it: generations numbered on and within surface and lock; verdicts for the accepted, unbroken candidate, rung by rung in plan order, the witness rung only on a yes; one question to the witness at a time; proposals on a passed plan, observations of a proposal, a commission on a match; nothing after the end |
| Ledger.DoorIff | crates/workshop/src/ledger.rs:314-493 | One more event is taken exactly when that law allows it |
| Ledger.AdmitsIff | crates/workshop/src/ledger.rs:590-620 | A generation is admitted exactly when it is next in number, the order has not ended, and it is a refusal or a well-formed candidate with the order's lock, effects and surface within the order's |
| Ledger.FailureNeedsNewGeneration | crates/workshop/src/ledger.rs:130-132 | After a failed rung or a witness's no, no rung is judged and no witness asked until the next generation |
| Ledger.BrokenMayBeCommissioned | crates/workshop/src/ledger.rs:403-407 | An order whose iteration has failed can be commissioned without a new generation if and only if every bench, read and act rung it plans had passed; a failed one of these therefore does end it |
| Ledger.WitnessSaidNo | crates/workshop/src/ledger.rs:439-445 | A ledger in which the witness said no and that condition holds |
| Ledger.ReplayKnowsPasses | crates/workshop/src/ledger.rs:366-409 | The rungs recorded as passed are exactly those with a passing verdict since the last generation, and no failed one is among them |
| Ledger.CommissionIsProved | crates/workshop/src/ledger.rs:451-486 | A commissioned order has, since its last generation, a declaration observed with the digest of a proposal made after this very candidate passed what the plan asks |
| Ledger.CandidateBeforeCommission | crates/workshop/src/ledger.rs:451-468 | Commissioning presupposes an accepted generation if and only if the plan is more than the witness alone |
| Ledger.StaleDeclaration | crates/workshop/src/ledger.rs:465-478 | A second proposal does not withdraw the declaration that matched the first |
| Ledger.StaleIff | crates/workshop/src/ledger.rs:451-486 | In every commissioned ledger the last observation saw the digest then proposed, and that digest is no longer the standing proposal if and only if the last proposal after the observation is a different one |
| Ledger.ReplayProposes | crates/workshop/src/ledger.rs:465-478 | The state's proposal is the last one since the last generation, and it counts as declared exactly when the last observation matched the proposal standing then |
| Ledger.WitnessOnlyGap | crates/workshop/src/ledger.rs:451-468 | A witness-only order commissioned before any generation |
| Ledger.ReplayMeans | crates/workshop/src/ledger.rs:262-311 | Each field of the replayed state is a fact about the events since the last generation |
| Ledger.ReplayCounts | crates/workshop/src/ledger.rs:330-350 | The replayed iteration is the number of generations |
| Ledger.LedgerFile.constructor | crates/workshop/src/ledger.rs:273-296 | A ledger opens with a valid order |
| Ledger.LedgerFile.State | crates/workshop/src/ledger.rs:264-311 | The loop computes the fold, and fails where it fails |
| Ledger.LedgerFile.Append | crates/workshop/src/ledger.rs:579-588 | Any event but a generation is written exactly when the ledger with it still replays |
| Ledger.LedgerFile.AppendGeneration | crates/workshop/src/ledger.rs:590-620 | A generation is written exactly when its outcome fits the order recorded in this ledger and the ledger with it replays |
| Ledger.LedgerFile.WriteValidated | crates/workshop/src/ledger.rs:624-652 | An event is written exactly when the ledger with it replays, and a refused one leaves no trace |
| Converge.CallsKeepNumbering | crates/factory/src/converge.rs:69-90 | Over any number of calls with any caps and any worlds the ledger only grows, its generations are numbered 1, 2, ... and each bench verdict follows its own |
| Converge.CallTells | crates/factory/src/converge.rs:61-175 | A call is some number of turns failed on the bench, each generated from the failure before it and recorded with its failed verdict, and one turn that ended it: converged exactly on a passed bench, refused on a refusal, invalid on an outcome the order does not take, exhausted at the cap, aborted where something failed; an order that plans no bench aborts at its first benched candidate |
| Converge.TurnTells | crates/factory/src/converge.rs:90-167 | The same for one turn |
| Converge.ResumeIsOneRun | crates/factory/src/converge.rs:69-90 | Continuing an exhausted run to a larger cap records and returns what one run would, if the adapter answers the first resumed request alike without the feedback |
| Converge.ResumeAgreesIff | crates/factory/src/converge.rs:69-90 | Continuing an exhausted run records what one run would if and only if the adapter answers the first resumed request alike with and without the forgotten feedback, or neither answer can be recorded (digests telling candidates apart) |
| Converge.ForgottenFeedbackShows | crates/factory/src/converge.rs:72-74 | Two valid candidates with different digests there leave different ledgers |
| Converge.FirstRecorded | crates/factory/src/converge.rs:90-107 | The first event a loop adds is its first answer, and it adds none if that cannot be recorded |
| Converge.LoopSplits | crates/factory/src/converge.rs:90-168 | An exhausted loop is the beginning of the loop with a larger cap |
| Converge.LoopAppends | crates/factory/src/converge.rs:104-157 | A call only appends, and keeps the ledger replayable |
| Converge.Runner.Turn | crates/factory/src/converge.rs:91-167 | One pass of the loop: generate, validate, record, materialise and bench, record, with every way out |
| Converge.Runner.Converge | crates/factory/src/converge.rs:61-175 | The loop over the real ledger produces the specified events, ending and bench verdicts, failures of adapter, materialising and bench included |

## Left out

- The language model, prompts, drafting and judging of theories, script authoring and review, process
  execution, storage formats, HTTP, Bluetooth, mesh: their outcomes are arbitrary inputs.
- I/O errors and crashes in the middle of a step, and races between a partner's request and the tick: steps
  are atomic, as the code gives no guarantee there.
- Actuation: presence transitions (which enabled rules fire is arbitrary), the guard and withdrawal checks (one
  flag each), habit depreciation, narration, and the counts the loop's functions return. The words of a
  direction and of a surface are given as sets.
- Hand.Hand.ActuateByHand: the `adjusted` observation in the human's name, the read of a surface's state and the
  lines printed.
- Hand.Hand.DemoteAfterReaction: archiving the candidate (`Search.DemoteKeeps` covers its effect), abandoning the
  thread and the belief override.
- ReactionRules: texts are taken as trimmed; who minted a rule, when and why it was disabled. That row ids are
  unique (they are salted clocks in 32 bits) is assumed where stated.
- Actuation: extraction of a reading from a command's output and the typing of its fields, which only narrow
  the readings and declarations that the proofs cover; role maps likewise. White space is ASCII in
  `Declaration.Blank`.
- Actuation: tools are identified by surface and action; that two different pairs can share the id of
  `crates/cycle/src/lib.rs:2816-2818` is not modelled.
- Actuation.VerdictAccounting: that every act ends is not claimed, because it is false (`Reactions.PartnerStrands`).
- Converge.ResumeAgreesIff: that the digest of a candidate stands for the whole of it is assumed where stated.
- Machine integers: counts and clocks are unbounded, except in `Calendar.YmdFitsI64`.
- Floating point: reals throughout; rounding of displayed temperatures is left out.
- FNV-1a, SHA-256 and the hash-drawn dice.
- Search: trait strings, pattern memory, the trial's scores and the self-tuned budget beyond its being a limit.
- Broker: the check that the configured address is well formed, and the characteristic, which is fixed.
- Heater.Heater.Request: the violations log and the claim of stewardship.
- Heater: time, draw name and temperature of a cold event; schedule windows may start at any second, where the
  source takes whole minutes.
- Irrigator.Agent.Decide: regrets, stress events and the log of decisions; the trusted forecast is one flag.
- Irrigator: settlement of predictions already trimmed away does not happen in the source either.
- Archivist: the choice of question and its verifier, whose finding is an arbitrary input.
- Ledger: which error a refused event is given; clocks, sequence numbers and order ids of events, which are
  their positions in one order's ledger; the order's goal and subject.
- Converge.Runner.Converge: the check that the ledger holds the order asked for, and what materialising and the
  jail do; what generation and bench answer, failures included, is arbitrary.
