# playmatchr backend: verified model of match statistics and tournament brackets

This project models the backend logic of the playmatchr sports-matching app.
That logic is three Cloud Functions over a document store:

- **Match-confirmation statistics aggregator** (`updatePlayerStatsOnMatchConfirmed`).
  It fires when a match document changes. If this is the first transition of its result status into
  `"confirmed"`, it copies every existing participant profile into a map. It then updates the copies
  in three ordered passes and writes every copy back in one batch:
  1. peer ratings update the no-show counter and the rolling sportsmanship average;
  2. every participant's matches-played counter goes up;
  3. a decisive one-against-one match also updates the win and loss counters and the Elo ratings.
- **Bracket advancer** (`advanceWinner`). When a tournament match is first confirmed, it places the
  winner into the first empty player slot of the next match. It schedules that match once both slots
  are filled, and it never overwrites a filled slot.
- **Bracket generator** (`generateBracket`). It runs its checks in a fixed order: tournament id,
  caller, tournament, permission, participant count. It then shuffles the registrations
  (Fisher-Yates), lays out `2^R - 1` placeholder matches round by round in one flat index space, and
  links slot `k` to slot `floor(k/2) + 2^(R-1)`. It fills round 1 with consecutive pairs, giving at
  most one bye, and finally asks the advancer to move bye winners on.

`index.js` lines 1-121 is the same aggregator as `functions/index.js` lines 1-121; only the
whitespace of one line differs. It is modelled once. The rows below cite the specification
functions of module `Stats` in `functions/index.js` and the lemmas of module `StatsProps` in `index.js`.

Modules:

- `Common`: `Option`, `Result` and an occurrence count.
- `Stats`: profiles, matches and the aggregator.
  - Class `PlayerUpdates` holds the copied profiles in a `map` field. Each pass is a method on it.
  - Each pass method is proved equal to a specification function on maps.
- `StatsProps`: what the aggregator does to each counter, proved about those functions.
- `Tournament`: tournament matches, the slot placement and the advancer.
- `BracketLayout`: the round count, the flat slot layout and its parent links.
- `Bracket`: the shuffle (in place on an `array`), the round-1 fill, the generator, and the findings.

Modelling conventions:

- Document ids of match slots are slot indices. `nextMatch` is `None` for the final.
- A JavaScript id field that is null or `""` is falsy (`Present`).
- A counter read with `|| 0` treats a missing value and 0 alike (`Counter`).
- A missing or 0.0 sportsmanship score reads as 5.0 (`Score`). A missing or 0 Elo reads as 1200 (`Elo`).
- The Elo formula is a parameter `elo: (int, int) -> (int, int)`. It maps the winner's and the loser's
  rating to their new ratings.
- `Math.random` becomes a parameter `pick`. `pick[i]` is the `j` of step `i`, with `0 <= j <= i`.
- `Math.ceil(Math.log2(n))` becomes `TotalRounds(n)`, the smallest `R` with `n <= 2^R`.

Behaviours of the code that a reader might not expect; the model follows the code in each:

- The no-show marker is the literal `"gelmedi"`.
- The aggregator writes each whole copied profile, not only the changed fields.
- A request with no auth object fails on reading `request.auth.uid` before any check. The model
  reports this as `Internal`.
- The bye winner is not advanced by the post-commit call (see Findings).
- Several ratings of one player in one match are each weighted by the same prior match count.
  The later rating therefore dominates; see `StatsProps.EveryRatingUsesPriorCount` and
  `StatsProps.TwoRatingsInOneMatch`.

One behaviour is modelled differently from the code. The generator allocates `n - 1` ids for
`2^R - 1` slots (see Findings). `Bracket.GenerateBracket` commits the corrected bracket with one id
per slot, and the as-written allocation is modelled separately by `Bracket.AllocatedMatchIds`.

## Model

| member | source | states |
|---|---|---|
| Stats.ResultRecorded | functions/index.js:77-105 | the result pass keeps the set of profiles and changes nothing unless the match is a decisive 1v1 (truthy winner, not "draw", one player per team) with both profiles present |
| Stats.StatsUpdate | functions/index.js:17-20 | a write happens exactly when the before-status is not "confirmed" and the after-status is |
| Stats.PlayerUpdates.constructor | functions/index.js:35 | the update map starts empty |
| Stats.PlayerUpdates.LoadExisting | functions/index.js:36-40 | the map becomes the copies of the existing participant profiles |
| Stats.PlayerUpdates.ApplyRatings | functions/index.js:43-64 | the in-place ratings loop leaves the map equal to the ratings pass applied to the old map |
| Stats.PlayerUpdates.CountMatchesPlayed | functions/index.js:70-75 | the in-place increment loop leaves the map equal to the increment pass applied to the old map |
| Stats.PlayerUpdates.RecordResult | functions/index.js:78-105 | the map becomes the result pass applied to the old map |
| Stats.UpdatePlayerStatsOnMatchConfirmed | functions/index.js:12-121 | the handler's writes are exactly the gated three-pass update of the fetched profiles |
| StatsProps.RedeliveryWritesNothing | index.js:17-20 | a redelivered update whose before-snapshot is confirmed writes nothing |
| StatsProps.FiresOnlyOnce | index.js:17-20 | in a history that never leaves "confirmed", after the handler fires once it never fires again |
| StatsProps.RatingsPassEffect | index.js:43-64 | the ratings pass raises noShows by the number of "gelmedi" reports for the player, touches no field but noShows and sportsmanshipScore, and leaves unrated profiles unchanged |
| StatsProps.SingleRatingAverage | index.js:54-61 | a profile rated once gets (score * played + rating) / (played + 1) from its score and played count before the pass |
| StatsProps.RatingsScore | index.js:43-61 | however many ratings target a profile, the ratings pass gives it the reference fold `ScoreAfter` of them in order, each averaging the previous score (missing or 0 read as 5.0) with weight equal to the unchanged played count |
| StatsProps.CountPassEffect | index.js:69-75 | the increment pass raises totalMatchesPlayed by the id's occurrences among the participants and changes nothing else |
| StatsProps.DistinctIdsCountOnce | index.js:24-25 | with distinct participant ids each participant occurs exactly once |
| StatsProps.ResultPassEffect | index.js:77-99 | when the result pass applies, the winner (team 1's player for "team1", otherwise team 2's) gains one win and the loser one loss, everyone else keeps their counters and Elo, the loser gets the rule's second rating and a distinct winner its first, and no other field changes |
| StatsProps.WritesOnlyExistingProfiles | index.js:24-40 | when the gate passes, the profiles written are exactly the participants whose profile exists (missing profiles are skipped) |
| StatsProps.PlayedAndNoShows | index.js:44-75 | per written profile, played rises by its occurrences among the participants whatever the ratings, and noShows by its no-show reports |
| StatsProps.SportsmanshipUsesPriorCount | index.js:55-75 | the sportsmanship average of a player rated once is weighted by the matches played before this match, not after the increment |
| StatsProps.EveryRatingUsesPriorCount | index.js:43-75 | every written profile's sportsmanship score is the reference fold of all its ratings in the match, each weighted by the matches played before this match, not after the increment |
| StatsProps.WinLossOnlyForDecisive1v1 | index.js:77-105 | won and lost change only for the winner and loser of a decisive 1v1 match with both profiles; otherwise won, lost and Elo are written back unchanged |
| StatsProps.EloFromStoredRatings | index.js:90-99 | the Elo rule is applied to the stored ratings with the 1200 default, the winner gets the first result and the loser the second |
| StatsProps.SportsmanshipTwoMatches | index.js:55-75 | a new profile rated 8 and then 6 in two confirmed matches has 8.0 and then 7.0, with 1 and then 2 matches played |
| StatsProps.TwoRatingsInOneMatch | index.js:44-61 | two ratings of one new profile in the same match (8 then 6) give 6.0, because both are weighted by the same prior count |
| Tournament.Place | functions/index.js:193-214 | no update exactly when both slots are filled; otherwise the winner goes to player 1 if empty, else player 2, the other slot is untouched, status becomes "scheduled" exactly when both slots are now filled and is untouched otherwise, and nothing else changes |
| Tournament.AdvanceWinner | functions/index.js:166-204 | skipped exactly when the update is not the first confirmation; nothing to advance exactly when the winner or the next match is falsy; next-match-missing exactly when the gate passes with a winner and a link but the linked match does not exist; an update targets the linked match with the placement decision, and whenever the gate passes, the linked match exists and it has room, the result is exactly that update; a full next match gives no write |
| Tournament.Advanced | functions/index.js:183-216 | an advancer run changes at most the linked next match, and only when it produces an update; when it does, that match is in range and becomes the stored match with the placement applied |
| Tournament.SiblingsFillBothSlots | functions/index.js:195-216 | two sibling winners fill player 1 then player 2 of an empty next match, neither is overwritten, scheduling happens only after the second, and no other match changes |
| Tournament.FullMatchIsNeverOverwritten | functions/index.js:200-204 | a winner sent to a match whose two slots are filled changes nothing |
| BracketLayout.TotalRounds | functions/index.js:271 | the round count is the smallest R with n <= 2^R (ceil(log2 n)) |
| BracketLayout.PowerOfTwoIffExact | functions/index.js:271 | n is a power of two exactly when n == 2^TotalRounds(n) |
| BracketLayout.Slots | functions/index.js:279-281 | the layout has 2^R - 1 slots |
| BracketLayout.ParentIndex | functions/index.js:283 | floor(k/2) + 2^(R-1) for slot k of match i of round r < R is the slot of match floor(i/2) of round r + 1 |
| BracketLayout.PlaceholderStep | functions/index.js:283-300 | the slot appended for match i of round r at flat index k extends the round's block, and the code's link index floor(k/2) + 2^(R-1) (null in round R) is its parent slot |
| BracketLayout.LayOutSlots | functions/index.js:272-302 | the nested placeholder loop produces exactly the layout: round r has 2^(R-r) pending, empty, "no_result" slots numbered 1.., linked to the parent slot except in round R |
| BracketLayout.LayoutAt | functions/index.js:279-298 | slot RoundStart(r) + i holds the placeholder of match i of round r with its parent link |
| BracketLayout.Locate | functions/index.js:279-281 | every slot index is match i of some round r |
| BracketLayout.LinksGoForward | functions/index.js:279-284 | a slot has a next match exactly when its round is below R; the only slot without one is the last (the final); a next slot lies strictly later (no cycles), equals floor(k/2) + 2^(R-1), is in the following round and holds match floor(i/2) |
| BracketLayout.ParentSlot | functions/index.js:283-284 | the parent of match i of round r < R lies strictly later, at the code's index, and holds match floor(i/2) of round r + 1 |
| BracketLayout.RoundOneSlots | functions/index.js:279-281 | the first 2^(R-1) slots are exactly round 1 |
| Bracket.SwapPermutes | functions/index.js:267 | one swap keeps the multiset of participants |
| Bracket.ShuffleIsPermutation | functions/index.js:265-268 | for every choice of j in [0, i] at each step the shuffle keeps the length and the multiset of participants |
| Bracket.ShuffleKeepsDistinct | functions/index.js:265-268 | distinct registration ids stay distinct through the shuffle |
| Bracket.Shuffle | functions/index.js:265-268 | the in-place swap loop leaves the array equal to the shuffle of its old contents with the given picks |
| Bracket.FillRoundOne | functions/index.js:305-320 | the fill loop pairs participants 2k and 2k+1 into slot k for the first ceil(n/2) slots and leaves the others unchanged |
| Bracket.BracketMatches | functions/index.js:270-320 | the committed matches have one entry per laid-out slot |
| Bracket.GenerateBracket | functions/index.js:230-323 | rejects in the source's order (no auth: internal; no tournament id: invalid-argument; empty uid: unauthenticated; no tournament: not-found; neither organiser nor admin: permission-denied; fewer than 2 registrations: failed-precondition); succeeds exactly when every check passes, committing the laid-out and paired matches (with the corrected one-id-per-slot numbering, see Findings) and the tournament with status "active"; the result also carries the shuffled participant order the round-1 slots are filled from, which the source does not store |
| Bracket.RoundOneCapacity | functions/index.js:305-307 | the ceil(n/2) filled slots fit within the 2^(R-1) slots of round 1 |
| Bracket.BracketSlot | functions/index.js:279-320 | each committed slot keeps its layout link and "no_result"; the first ceil(n/2) are paired round-1 slots; all others are empty and pending |
| Bracket.LaidOutSlot | functions/index.js:279-298 | every laid-out slot is empty, pending and "no_result"; it is in round 1 exactly when its index is below 2^(R-1), and then it is match k of round 1 |
| Bracket.BracketMatchAt | functions/index.js:305-320 | committed slot k is the paired layout slot for k < ceil(n/2) and the untouched layout slot otherwise; pairing keeps round, result status and link |
| Bracket.PairShape | functions/index.js:308-317 | a paired slot has participant 2k as player 1; with participant 2k+1 it is scheduled, without one it is a completed bye whose winner is player 1 |
| Bracket.PairedPlayers | functions/index.js:306-312 | committed slot k holds participants 2k and 2k+1 (null when absent) when paired, and no players otherwise |
| Bracket.SlotHoldsOnlyItsPair | functions/index.js:306-312 | with distinct ids, a slot holding the participant at position t is slot floor(t/2) |
| Bracket.EachParticipantInOneSlot | functions/index.js:306-312 | the shuffled participant at position t sits in round-1 slot floor(t/2), as player 1 or 2 by parity, and in no other slot |
| Bracket.ByeExactlyWhenOdd | functions/index.js:313-317 | a slot is completed exactly when n is odd and it is the last filled slot; the bye has no player 2 and its winner is its player 1, the last participant; every other filled slot is scheduled with two players |
| Bracket.RequiredMatchIds | functions/index.js:273-275 | one id per slot needs 2^R - 1 ids, never fewer than the n - 1 allocated |
| Bracket.AllocatedIdsCoverSlotsIffPowerOfTwo | functions/index.js:271-284 | as written, every slot index fits among the n - 1 allocated ids exactly when n is a power of two |
| Bracket.ThreeParticipantsLackAnId | functions/index.js:271-284 | as written, three participants give three slots but two ids, and both round-1 slots link to slot 2, which has no id |
| Bracket.RequiredIdsCoverEveryLink | functions/index.js:275-284 | with one id per slot every slot and every link target has an id |
| Bracket.ByeAdvanceIsSkipped | functions/index.js:328-341 | as written, the synthetic advance for any bye slot is turned away by the advancer's gate |
| Bracket.ByeSlotOfOddCount | functions/index.js:313-317 | for odd n the last paired slot is a round-1 bye won by the last participant |
| Bracket.ByeLinkTarget | functions/index.js:279-284 | the bye slot links to an empty round-2 slot of the committed bracket |
| Bracket.ConfirmedByeReachesRoundTwo | functions/index.js:334-341 | with the after-data marked "confirmed", the bye winner is placed as player 1 of the round-2 match its slot links to, unscheduled |

## Left out

- Document-store I/O is not modelled: the profile and document reads, the write batch, the transaction
  and its retries, the registrations query, the commit and commit failures. The aggregator's result is
  the map the batch would write, and the generator's result is the bracket it would commit. The
  internal error after a failed generator commit is not modelled.
- Logging (`logger`) and the `onDocumentUpdated`/`onCall` trigger plumbing are not modelled.
- Concurrency is not modelled. Advancer transactions are taken as serialized one after another, with
  no isolation model. The aggregator's unisolated read-then-write race is not modelled.
- The Elo formula (`Math.pow`, `Math.round`, K factor 32) is a parameter. The model states only which
  ratings it receives and where its results go; a concrete outcome such as 1200 against 1200 giving
  1216 and 1184 is not stated.
- StatsProps.SportsmanshipUsesPriorCount: the average is exact real arithmetic, without the
  `toFixed(2)` rounding to two decimals.
- Stats.PlayerUpdates.ApplyRatings: each new average is an exact real, without the `toFixed(2)`
  rounding to two decimals.
- StatsProps.SingleRatingAverage: the average is an exact real, without the `toFixed(2)` rounding.
- StatsProps.SportsmanshipTwoMatches: the averages are exact reals, without the `toFixed(2)`
  rounding; for the values in this example the rounding would change nothing.
- StatsProps.RatingsScore: the reference fold `ScoreAfter` averages in exact reals, without the
  `toFixed(2)` rounding after each rating.
- StatsProps.EveryRatingUsesPriorCount: as for StatsProps.RatingsScore, no `toFixed(2)` rounding.
- Floating-point `Math.log2`/`Math.ceil` are replaced by the exact integer round count.
- `Math.random` is replaced by the `pick` parameter.
- Match document ids are slot indices. The fields `tournamentId`, `createdAt` and `resultConfirmedBy`
  of a placeholder are not modelled.
- Bracket.GenerateBracket: its Ok branch is the corrected bracket, in which every one of the `2^R - 1`
  slots has its own id. As written, when `n` is not a power of two the slots and `nextMatchId` links at
  index `n - 1` and above get `undefined` ids (see Findings). The document store most likely refuses
  `doc(undefined)` and `undefined` field values already in `batch.set` (line 299), which runs before the
  `try` at line 325; the call would then fail with an internal error before anything is written, for
  every `n` that is not a power of two (not executed). That store behaviour is not modelled. It would
  also mean that the bye path of lines 328-341 is never reached as written, since a bye needs an odd
  `n` of at least 3, which is never a power of two.
- A `generateBracket` call with no payload at all (`request.data` null) is not modelled: the payload is
  taken to be an object. Such a call would fail on reading `tournamentId` (line 231) before the auth
  read, an internal error, whereas a payload without an id gives invalid-argument.
- The registration counters (`onTournamentRegistrationChange`, `onTournamentRegistrationDelete`,
  `functions/index.js` lines 132-154) are single increments through the store and are not modelled.
- `ios/Runner/AppDelegate.swift` is app start-up code and is not part of this model.
- Profile fields other than the six statistics are not modelled. They are copied and written back unchanged.
- Dynamic JavaScript values are not modelled: non-numeric counters, NaN, and a rating without
  `sportsmanship`. Counters are naturals, scores reals and ids strings.

## Findings

| source | as written | input that shows it | evidently intended | confidence | as-written member | corrected member |
|---|---|---|---|---|---|---|
| functions/index.js:273-284 | `n - 1` match ids are allocated, but `2^R - 1` slots are laid out and linked by index | 3 participants: 3 slots, 2 ids; both round-1 slots link to index 2, which has no id | one id per laid-out slot (`2^R - 1`), so every slot and every link target has an id | not executed | Bracket.ThreeParticipantsLackAnId | Bracket.RequiredIdsCoverEveryLink |
| functions/index.js:335-341 | the post-commit advance passes the bye slot's data as after-data, and its resultStatus is still "no_result", so the advancer's gate skips it | 3 participants: bye slot 1 is completed, but the call returns Skipped | the bye winner reaches its round-2 match | not executed | Bracket.ByeAdvanceIsSkipped | Bracket.ConfirmedByeReachesRoundTwo |
