# MISALIGN game core in Dafny

MISALIGN is a Discord party game for three or four players. It plays six rounds,
each a minigame drawn from eight. Every player secretly submits a choice text, and
the round's minigame turns all the choices into a score delta per player. Once per
game, each player may also use an ability that bends the current round: force
another player's choice, copy someone's delta, lock a player out of abilities, and
so on. The whole program lives in `main.go`.

This project models that program's game logic as immutable values and pure
functions:

- **Text primitives** (`text.dfy`, module `Text`). The Go string functions the
  rules depend on: `strings.TrimSpace`, `Fields`, `Trim`, `ToLower`, `Contains`,
  `TrimPrefix` and `EqualFold(_, "yes")`, plus `strconv.Atoi`.
- **Scoring library** (`scoring.dfy`, module `Scoring`). One declarative rule per
  minigame, and `Evaluate`, the dispatch of `evaluateRound`. Two decisions are left
  to Go's map order or to an unstable sort: the Circular Track move value and the
  Race ranking. These form a `TieBreak` parameter, and `ValidTieBreak` admits every
  choice the source could make.
- **Scoring algorithms** (`scoring_loops.dfy`, module `ScoringLoops`). The source's
  loops over Go maps, written as methods. Each takes the map's iteration order as a
  parameter and is proved to compute the declarative rule, whatever that order is.
  `EvaluateRound` proves that the source's computation always yields a legal
  tie-break and exactly `Evaluate`'s outcome.
- **Properties of the rules** (`scoring_facts.dfy`, module `ScoringFacts`), plus
  worked examples of each rule on small inputs.
- **The session** (`session.dfy`, module `Session`). One channel's game as a value:
  creation, the lobby, the start, submissions, round resolution (the intervention
  overlay, scoring, the Assimilation copy, and booking the scores and logs), the
  round advance and the finish, the host's forced close, and the deadline timer's
  staleness check.
- **The ability engine** (`abilities.dfy`, module `Abilities`). Parsing
  `!ability …`, the gates a caster must pass, and the overlay each ability writes.
- **Session properties** (`session_facts.dfy`, module `SessionFacts`). The session
  invariant `Inv`: roster, phase, dealt abilities, well-formed overlay, horse floor,
  scores equal to the sum of the logged deltas, and recorded ability use. It holds
  after creation and is kept by every transition. The module also holds the
  ability-lifecycle facts: one use per game, Lock lasting one round, at most one
  copy link.
- `wrappers.dfy` (`Option`, `Result`) and `maps.dfy` (distinct sequences, map
  injectivity) are small general helpers.

A few behaviours of the code are easy to mistake for something else. The model
follows the code as written:

- A Lock lasts only the current round. The whole ability overlay is reset when the
  next round opens (main.go:283).
- `resolveRound` has no "already resolved" guard. It checks only that the game is
  running (main.go:365), so a second resolution scores the next round.
  `DeadlineStaleAfterResolve` shows that the timer of a resolved round is stale.
- In 1-2-3 Match, when some value repeats, a player whose value is unique scores 0,
  not -1 (main.go:454-469). `ScoringFacts.Match123Example` works a pair and a
  singleton.
- A player who submitted nothing takes part with the empty choice (main.go:372-378).
  `ScoringFacts.EmptyChoiceTakesPart` states what that means in each minigame.
- `startGame` checks the host first, then the player count, then the lobby status.
  A repeated start by the host returns silently (main.go:229-242).
- `NunchiResolved` is set by the Nunchi rule and cleared each round, but never read.

## Model

| member | source | states |
|---|---|---|
| Scoring.Zeros | main.go:416-419 | every player of the round starts at delta 0 |
| Scoring.ContainsId | main.go:754-761 | `contains` is exactly sequence membership |
| Scoring.Wrap64 | main.go:499 | the track position update wraps like Go's 64-bit `int`: always in range, the identity on in-range sums, and differing from the exact sum by a multiple of 2^64 |
| Scoring.Bids | main.go:472-475 | every player of the round has a bid |
| Scoring.TrackRule | main.go:482-508 | only choosers of the selected value move; each mover ends below 9; a player scores 6 exactly when it chose the target and landed exactly on 9, otherwise 0; unmoved positions are unchanged |
| Scoring.ParseOrder | main.go:512-521 | a race order is accepted only for horse 1, 2 or 3 |
| ScoringFacts.ParseOrderAccepts | main.go:512-521 | an order is accepted exactly when the lower-cased text has two words and the first, less its `horse` prefix, reads as 1, 2 or 3; the order is then that horse and the second word |
| ScoringFacts.ParseOrderOfOrder | main.go:512-521 | `horse<n> <action>` with n in 1..3 and a lower-case action word parses back to horse n and that action |
| Scoring.MovedHorses | main.go:533-538 | after the moves no horse position is negative |
| Scoring.NewLastActions | main.go:522-531 | every player still has exactly one last race action; what it becomes is stated by `ScoringLoops.TallyMoves` and `ScoringFacts.RepeatedSabotageIgnored` |
| Scoring.Evaluate | main.go:415-597 | every player gets a delta; only the current minigame's own state changes (track, race, Nunchi); horses stay non-negative |
| ScoringFacts.Match123Outcomes | main.go:443-469 | "as many distinct values as players" is "no two players chose alike", and then all lose 1; otherwise 4 exactly for a value chosen twice, -2 exactly for three or more, 0 exactly for a unique value |
| ScoringFacts.WinningBidIsHighestLoneBid | main.go:476-481 | the scan from 5 down finds the highest level bid by exactly one player, and finds nothing only when no level in 0..5 has a single bidder |
| ScoringFacts.AuctionSingleWinner | main.go:470-481 | at most one player gains 6; the winner is the only bidder of the highest single-bidder level in 5..0; everyone else scores 0; somebody wins whenever some level in 0..5 has a single bidder |
| ScoringFacts.TimingParity | main.go:556-573 | n clickers each score n when n is odd and -n when even; non-clickers score 0; no clicker means no score |
| ScoringFacts.NunchiOutcomes | main.go:578-594 | a lone yes gains 5, several yeses lose 3 each, nobody else scores; the round is resolved exactly when someone said yes or it already was |
| ScoringFacts.RepeatedSabotageIgnored | main.go:522-524 | a sabotage right after the same player's sabotage moves no horse and leaves the last action at sabotage |
| ScoringFacts.RacePayouts | main.go:541-555 | a bet on the leading horse pays 5, on the second 3; any other non-empty choice costs 3; a choice without a word pays 0 |
| ScoringFacts.EmptyChoiceTakesPart | main.go:372-378 | the empty choice is no traitor, bids 0, does not click, does not say yes, and gives no race order or bet |
| ScoringFacts.TraitorSplitExample | main.go:421-442 | one traitor among three takes 6 and the others lose 3 |
| ScoringFacts.Match123Example | main.go:443-469 | a pair scores 4 each and the unique value scores 0 |
| ScoringFacts.BidOfDigit | main.go:473 | a single decimal digit bids its value |
| ScoringFacts.AuctionExample | main.go:470-481 | bids 3, 3, 5: the lone 5 takes 6 |
| ScoringFacts.TimingExample | main.go:556-573 | two clickers, an even count: each loses 2 |
| ScoringLoops.CollectIds | main.go:422-427 | the ids collected while walking the map are exactly the selected players, each once |
| ScoringLoops.ComputeTraitorSplit | main.go:421-442 | for any map order, the loops compute the Traitor Split rule |
| ScoringLoops.Tally | main.go:444-447 | the count map has exactly the chosen values as keys, each with its number of choosers |
| ScoringLoops.AwardChoosers | main.go:456-460 | the choosers of a value get the score, and nobody else changes |
| ScoringLoops.Fill | main.go:449-451 | every player gets the same value |
| ScoringLoops.ComputeMatch123 | main.go:443-469 | for any order of players and counts, the loops compute the 1-2-3 Match rule |
| ScoringLoops.ComputeSecretAuction | main.go:470-481 | for any map order, the level scan computes the Secret Auction rule |
| ScoringLoops.SelectTrackTarget | main.go:483-494 | whatever the count map's order, the selected value is one of maximal frequency (the empty text when nobody plays) |
| ScoringLoops.MoveOnTrack | main.go:499-506 | one mover's bonus is 6 exactly on landing on 9, and the new position is 0 on or past 9 |
| ScoringLoops.ComputeCircularTrack | main.go:482-508 | for any map order, the target is a legal tie-break and the loops compute the Circular Track rule for it |
| ScoringLoops.ApplyOrder | main.go:516-531 | one order changes only its horse's move, by +1 for boost and -1 for sabotage, and is carried out exactly when it is not a repeated sabotage |
| ScoringLoops.TallyMoves | main.go:510-532 | for any map order, each horse's net move is its accepted boosts minus accepted sabotages, and the last actions are updated as the rule says |
| ScoringLoops.ApplyMoves | main.go:533-538 | each horse moves by its net move, floored at 0 |
| ScoringLoops.RankHorses | main.go:539-540 | the ranking lists the three horses leading first; ties keep index order, which is one of the orders the unstable sort may give |
| ScoringLoops.PayFor | main.go:542-554 | a choice bets exactly when it has a word, and pays what the payout rule says |
| ScoringLoops.PayBets | main.go:541-555 | for any map order, every player is paid by its bet against the ranking |
| ScoringLoops.ComputeRace | main.go:509-555 | the ranking computed is legal for the moved horses, and the Race rule's deltas, horses and last actions result |
| ScoringLoops.ComputeTimingButton | main.go:556-573 | for any map order, the loops compute the Timing Button rule |
| ScoringLoops.ComputeNunchi | main.go:578-594 | for any map order, the loops compute the Nunchi rule and its resolved marker |
| ScoringLoops.EvaluateRound | main.go:415-597 | for any map orders, the source's evaluation makes a legal tie-break and yields exactly the declarative outcome for it |
| Session.NewGame | main.go:167-185 | a new game is an empty lobby owned by its creator, in round 0, with no order, submissions, logs, minigames or overlay, the three horses at 0 and the Nunchi marker clear, and it satisfies the session invariant |
| Session.Join | main.go:197-220 | joining succeeds exactly in the lobby, with fewer than four players and a new id; the reported error follows the source's check order; the newcomer is appended to the order as a fresh player (score 0, no ability, no use, no choices, no race action, track position 0), nobody else changes, and no other field of the game changes |
| Session.AssignAbilities | main.go:264-270 | dealing abilities keeps the roster |
| Session.Start | main.go:222-256 | starting succeeds exactly for the host, with three or more players, in the lobby, with errors in that order; the game runs round 1 of the first six shuffled minigames, with the abilities dealt, no submissions, no overlay and the Nunchi marker clear; host, order, logs and horses are kept and no other field changes |
| Session.StartNextRound | main.go:272-291 | after round 6 the game finishes and nothing else changes; otherwise the round grows by one, its minigame becomes current, and submissions, overlay and Nunchi marker are cleared |
| Session.Choose | main.go:327-361 | submitting fails exactly without a value (a usage error) or, given a value, outside a running game (not playing); otherwise the caller's choice for the current round is the space-joined words, its other rounds are kept, it counts as received, and `done` holds exactly when everybody has submitted |
| Session.Submit | main.go:327-361 | the whole `choose` command: it fails exactly as the submission does; when the submission brings the received count up to the player count, the round is resolved and has moved on or finished; otherwise the game is the submission's and the round stays open |
| Session.EffectiveChoices | main.go:370-378 | a player plays its intervened value if any, else its submission this round, else the empty text |
| Session.RoundStateOf | main.go:496-531 | the rules' state holds exactly each player's track position and last race action, and the session's horses and Nunchi marker |
| Session.Assimilate | main.go:381-383 | a linked player's delta becomes its target's (0 for a non-player target); all others keep theirs |
| Session.SettlePlayers | main.go:384-385 | every score grows by its delta and the rules' per-player state is written back |
| Session.SettleLogs | main.go:386 | every player's log gains one line with the round, minigame, choice, delta and new total; other logs are unchanged |
| Session.Settle | main.go:384-387 | booking changes only the scores, per-player rule state, logs, horses and Nunchi marker |
| Session.Resolve | main.go:363-413 | nothing happens unless the game is running; otherwise every player's log grows by one line, and the game either opens the next round with a fresh overlay or finishes after round 6 |
| Session.RoundOutcome | main.go:371-379 | the current rule is applied to every player's effective choice and keeps the horses non-negative |
| Session.RoundDeltas | main.go:379-383 | unlinked players book their own delta, linked ones their target's |
| Session.ForceResolve | main.go:706-717 | only the host may close a round early, and doing so is exactly a resolution |
| Session.OnDeadline | main.go:293-302 | the timer resolves the round only while the game runs in the round it was set for, and is a no-op otherwise |
| Abilities.ParseRequest | main.go:600-644 | fewer than two words is a usage error; the name is lowered, the target loses its mention marks, and the remaining words are joined by single spaces |
| Abilities.Cast | main.go:621-703 | success exactly when the caster plays, names its own ability, has not used it, is not locked, and gives the arguments the ability needs; each failure reports the first failing gate; success replaces the overlay by the previous one with exactly that ability's entry written (Intervention's forced value, Blackout's flag, Assimilation's link, Lock's target, Mask's caster; nothing for Share, Scan and MetaView), the caster changes only by spending its use in the current round, and nobody else changes |
| Abilities.UseAbility | main.go:599-704 | the whole command: a usage error for fewer than two words, otherwise the cast of the parsed request |
| SessionFacts.JoinPreservesInv | main.go:197-220 | joining keeps the session invariant |
| SessionFacts.AssignAbilitiesDeals | main.go:264-270 | the i-th player of the order gets the i-th shuffled ability, and nothing else changes |
| SessionFacts.AssignAbilitiesDistinct | main.go:264-270 | with distinct abilities, every player gets one and no two players share one |
| SessionFacts.StartDeals | main.go:243-246 | a started game has distinct minigames and distinct dealt abilities, and the players are otherwise unchanged |
| SessionFacts.StartPreservesInv | main.go:222-256 | starting keeps the session invariant |
| SessionFacts.ChoosePreservesInv | main.go:327-361 | submitting keeps the session invariant |
| SessionFacts.ChooseDoneWhenAllSubmitted | main.go:352-354 | `done` holds after a submission exactly when the set of submitters is the whole roster |
| SessionFacts.SubmitClosesRound | main.go:352-360 | the command closes the round (next round, or the finish) exactly when every player has now submitted |
| SessionFacts.SubmitLogsRound | main.go:358-360 | the closing submission scores the round and every player's log gains a line; any other submission leaves the logs alone |
| SessionFacts.SubmitPreservesInv | main.go:327-361 | the whole command, resolution included, keeps the session invariant |
| SessionFacts.ChoiceKeepsWords | main.go:332 | splitting the stored choice gives back the submitted words |
| SessionFacts.ChooseKeepsAbilities | main.go:349-354 | submitting changes no player's ability or its use |
| SessionFacts.CastPreservesInv | main.go:621-703 | a successful ability use keeps the session invariant |
| SessionFacts.SecondUseFails | main.go:628-631 | after a successful use the caster's next use fails, with "already used" when it names the same ability |
| SessionFacts.LockBarsTarget | main.go:632-635 | after a Lock the target is locked, and its own ability use fails this round |
| SessionFacts.LocksClearNextRound | main.go:283 | after the round is resolved no lock remains, and no ability use fails for being locked |
| SessionFacts.AtMostOneCopyLink | main.go:381-383 | in every reachable session at most one Assimilation link exists, so the order of the copy loop does not matter |
| SessionFacts.CopyOrderIrrelevant | main.go:381-383 | copying links one by one in any order equals the simultaneous copy when there is at most one link |
| SessionFacts.SettleKeepsInv | main.go:384-387 | booking deltas keeps the session invariant; in particular each score stays the sum of its logged deltas |
| SessionFacts.NextRoundKeepsInv | main.go:272-291 | opening the next round or finishing keeps the session invariant |
| SessionFacts.ResolvePreservesInv | main.go:363-413 | resolving a round keeps the session invariant |
| SessionFacts.ResolveBooksDeltas | main.go:384-387 | each player's score grows by exactly its booked delta, and its log gains exactly that line |
| SessionFacts.ResolveKeepsAbilities | main.go:363-413 | resolving changes no player's ability or its use |
| SessionFacts.DeadlineStaleAfterResolve | main.go:293-302 | once a round is resolved its timer is stale, and a resolution always changes the game |
| SessionFacts.ForceKeepsInv | main.go:706-717 | the host's forced close keeps the session invariant |
| SessionFacts.DeadlineKeepsInv | main.go:293-302 | the deadline firing keeps the session invariant |
| SessionFacts.MentionNamesId | main.go:639 | stripping mention marks from `<@id>` or `<@!id>` gives the numeric id |
| Text.TrimSpace | main.go:473 | the trimmed text is the input's slice after the leading white space; it neither starts nor ends with white space and is followed only by white space |
| Text.TrimCut | main.go:639 | the result is the input with a prefix and a suffix made only of cut characters removed, and neither starts nor ends with a cut character |
| Text.Fields | main.go:512 | the fields are words, no more than the input has characters |
| Text.FieldsEmpty | main.go:542-545 | a text has no fields exactly when it is all white space |
| Text.FieldsJoinNonSpace | main.go:512 | glued back together, the fields are exactly the input's non-space characters, in order |
| Text.FieldsSplitAtSpace | main.go:512 | splitting at any white-space character splits the fields: the fields of `a`, a space, `b` are the fields of `a` followed by those of `b`; with `FieldsOfWord` and `FieldsEmpty` this makes the fields the maximal non-space runs |
| Text.FieldsOfUnwords | main.go:332 | splitting space-joined words gives the words back |
| Text.ToLower | main.go:512 | lowering works character by character and keeps the length |
| Text.LowerChar | main.go:559 | a character lowers into an ASCII letter exactly when it is one or a capital that Go lowers into one, and white space stays white space |
| Text.TrimPrefix | main.go:517 | with the prefix present, the prefix followed by the result is the input; otherwise the input is unchanged |
| Text.Atoi | main.go:473 | the result is a 64-bit value; a decimal with optional sign reads as its value clamped to 64 bits; leading digits worth more than 64 unsigned bits saturate to the largest value (the smallest after `-`) whatever follows; any other non-decimal text reads as 0 |
| Text.AtoiSaturates | main.go:473 | digits worth more than 64 unsigned bits followed by a non-digit read as the largest 64-bit value, with `+` too, and as the smallest with `-` |
| Text.AtoiOfDecimal | main.go:495 | every 64-bit non-negative number written in decimal, unsigned, with `+` or with `-`, reads back as itself or its negation |

## Left out

- Discord transport is not modelled. This covers `main`, message dispatch, help
  text, `statusGame`, and every message or DM sent. The state each command changes
  is modelled; what it prints is not.
- The channel registry and the game lookup (`getGame`, and the search over
  `b.games` in `choose` and `useAbility`) are not modelled. Each transition takes
  the session it acts on. `createGame`'s "already exists" guard belongs to the
  registry.
- Mutexes, the timer goroutine and `time.Now` are not modelled. The three-minute
  timer is only its staleness check (`DeadlineLive`, `OnDeadline`). Interleavings
  are not modelled.
- `rand.Shuffle` is not modelled. `Start` takes the shuffled minigames and
  abilities as parameters constrained to be permutations of all eight.
- Log text, scoreboard and final-ranking formatting (main.go:386-409, 735-750) are
  not modelled. A log line is a record of its fields, and the Blackout and forced
  flags only change messages.
- The Share, Scan, Lock and MetaView reports are not modelled. They are messages;
  besides the caster's one use, the only state they change is Lock's entry for its
  target in the round's locks. Go's nil channel on a
  failed `UserChannelCreate` is not modelled either.
- `RoundStartedAt`, `RaceHorseLengths`, the player's `ID` and the
  `ChannelID`/`GuildID` fields are not modelled. Nothing in the game logic reads
  them.
- `Text.ToLower`: lowers the characters that can change a comparison with ASCII
  text (ASCII capitals, U+0130, U+212A) and keeps every other character. Full
  Unicode case mapping is not modelled.
- `Text.Fields`: its own contract states only that it yields words. Emptiness,
  contents and maximality are stated by `Text.FieldsEmpty`,
  `Text.FieldsJoinNonSpace` and `Text.FieldsSplitAtSpace`. They are kept out of the
  function's contract so that every proof about the rules stays small.
- `Scoring.ParseOrder`: its own contract states only the horse range. The full
  acceptance condition is `ScoringFacts.ParseOrderAccepts`, kept out of the
  function's contract for the same reason.
- `Text.Fields` and `Text.TrimSpace` take strings as code-point sequences. UTF-8
  decoding is not modelled.
- `Abilities.Cast`: requires that a Lock or Scan target is a player
  (`TargetKnown`). The source dereferences a missing player there (main.go:667,
  683) and would crash.
- `math.Floor(6.0/float64(n))` for n of 1 to 4 traitors is the integer `6 / n`.
  No floating point is modelled.
- OX scores everyone 0 (main.go:574-577). Its rule is `Zeros` inside `Evaluate`.
- `ScoringLoops.RankHorses`: returns one particular ranking, the stable one.
  `Evaluate` and `EvaluateRound` accept any ranking that `IsRanking` allows, which
  covers every result of Go's unstable sort.
