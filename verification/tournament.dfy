/**
 * Tournament matches and the bracket advancer (`advanceWinner`).
 *
 * When a tournament match is updated for the first time into result status
 * "confirmed", the advancer reads the next match inside a transaction and
 * places the winner into its first empty player slot, scheduling the next
 * match once both slots are filled. A match document refers to its next
 * match by slot index in this model (see module BracketLayout).
 */
module Tournament {
  import opened Common

  const PENDING := "pending"
  const NO_RESULT := "no_result"

  datatype Status = Pending | Scheduled | Completed

  /**
   * A tournament match document. Null fields are `None`; `nextMatch` is the
   * slot of the match the winner plays next (`None` for the final).
   */
  datatype TournamentMatch = TournamentMatch(
    round: nat,
    matchNumberInRound: nat,
    player1Id: Option<UserId>,
    player2Id: Option<UserId>,
    winnerId: Option<UserId>,
    nextMatch: Option<nat>,
    status: Status,
    resultStatus: string)

  /** JavaScript truthiness of an id field: neither null nor the empty string. */
  predicate Present(id: Option<UserId>)
  {
    id.Some? && id.value != ""
  }

  /**
   * The fields of the transaction's `updateData`: a player field is written
   * when it is `Some`, and `status` becomes "scheduled" when `scheduled`.
   */
  datatype MatchUpdate = MatchUpdate(player1Id: Option<UserId>, player2Id: Option<UserId>, scheduled: bool)

  /** The next match after the update is committed. */
  function Apply(m: TournamentMatch, u: MatchUpdate): TournamentMatch
  {
    m.(player1Id := if u.player1Id.Some? then u.player1Id else m.player1Id,
       player2Id := if u.player2Id.Some? then u.player2Id else m.player2Id,
       status := if u.scheduled then Scheduled else m.status)
  }

  /**
   * The slot decision on the next match's snapshot: the first empty slot
   * gets the winner; a full match gets no update (`None`).
   */
  function Place(next: TournamentMatch, winner: UserId): (u: Option<MatchUpdate>)
    requires winner != ""
    ensures u.None? <==> Present(next.player1Id) && Present(next.player2Id)
    ensures u.Some? ==>
      var after := Apply(next, u.value);
      // the first empty slot receives the winner, and only that slot changes
      && (!Present(next.player1Id) ==> after.player1Id == Some(winner) && after.player2Id == next.player2Id)
      && (Present(next.player1Id) ==> after.player1Id == next.player1Id && after.player2Id == Some(winner))
      // scheduled exactly when both slots are now filled; otherwise status is untouched
      && (after.status == if Present(after.player1Id) && Present(after.player2Id) then Scheduled else next.status)
      && (u.value.scheduled <==> Present(after.player1Id) && Present(after.player2Id))
      // nothing but the players and the status changes
      && after == next.(player1Id := after.player1Id, player2Id := after.player2Id, status := after.status)
  {
    if !Present(next.player1Id) then
      Some(MatchUpdate(Some(winner), None, Present(next.player2Id)))
    else if !Present(next.player2Id) then
      Some(MatchUpdate(None, Some(winner), true))
    else
      None
  }

  /** What one run of the advancer does. */
  datatype Advance =
    | Skipped                      // not the first transition into "confirmed"
    | NothingToAdvance             // no winner or no next match
    | NextMissing                  // the transaction fails: the next match does not exist
    | NextFull                     // both slots already taken: warning, no write
    | Update(target: nat, update: MatchUpdate)

  /** The advancer's gate: the update is the first transition into "confirmed". */
  predicate FirstConfirmation(beforeResultStatus: string, after: TournamentMatch)
  {
    beforeResultStatus != CONFIRMED && after.resultStatus == CONFIRMED
  }

  /**
   * The advancer for one update of a match: `beforeResultStatus` is the
   * before-snapshot's result status, `after` the after-snapshot and `next`
   * what the transaction reads for the next match (`None`: no document).
   */
  function AdvanceWinner(beforeResultStatus: string, after: TournamentMatch, next: Option<TournamentMatch>): (a: Advance)
    ensures !FirstConfirmation(beforeResultStatus, after) <==> a == Skipped
    ensures FirstConfirmation(beforeResultStatus, after) && (!Present(after.winnerId) || after.nextMatch.None?)
      <==> a == NothingToAdvance
    ensures a.Update? ==>
      && FirstConfirmation(beforeResultStatus, after)
      && Present(after.winnerId) && after.nextMatch == Some(a.target) && next.Some?
      && Place(next.value, after.winnerId.value) == Some(a.update)
    ensures a == NextFull ==> next.Some? && Present(next.value.player1Id) && Present(next.value.player2Id)
    ensures a == NextMissing
      <==> FirstConfirmation(beforeResultStatus, after) && Present(after.winnerId) && after.nextMatch.Some? && next.None?
    // a gated run with a winner and an existing next match that has room places the winner there
    ensures FirstConfirmation(beforeResultStatus, after) && Present(after.winnerId) && after.nextMatch.Some?
      && next.Some? && Place(next.value, after.winnerId.value).Some?
      ==> a == Update(after.nextMatch.value, Place(next.value, after.winnerId.value).value)
  {
    if beforeResultStatus == CONFIRMED || after.resultStatus != CONFIRMED then Skipped
    else if !Present(after.winnerId) || after.nextMatch.None? then NothingToAdvance
    else if next.None? then NextMissing
    else
      match Place(next.value, after.winnerId.value)
      case None => NextFull
      case Some(u) => Update(after.nextMatch.value, u)
  }

  /** The match stored at a slot, if the slot exists. */
  function Lookup(matches: seq<TournamentMatch>, slot: Option<nat>): Option<TournamentMatch>
  {
    if slot.Some? && slot.value < |matches| then Some(matches[slot.value]) else None
  }

  /** The bracket after one advancer run has committed (unchanged when it writes nothing). */
  function Advanced(matches: seq<TournamentMatch>, beforeResultStatus: string, after: TournamentMatch): (r: seq<TournamentMatch>)
    ensures |r| == |matches|
    ensures forall k | 0 <= k < |r| && r[k] != matches[k] ::
      after.nextMatch == Some(k) && AdvanceWinner(beforeResultStatus, after, Lookup(matches, after.nextMatch)).Update?
    ensures var a := AdvanceWinner(beforeResultStatus, after, Lookup(matches, after.nextMatch));
      a.Update? ==> a.target < |matches| && r[a.target] == Apply(matches[a.target], a.update)
  {
    match AdvanceWinner(beforeResultStatus, after, Lookup(matches, after.nextMatch))
    case Update(target, u) => matches[target := Apply(matches[target], u)]
    case _ => matches
  }

  /**
   * Two sibling matches confirmed one after the other (the transactions
   * serialise them) and feeding the same empty next match: the first winner
   * takes player 1, the second player 2, neither overwrites the other, and
   * the next match is scheduled only after the second.
   */
  lemma SiblingsFillBothSlots(matches: seq<TournamentMatch>, t: nat, a: TournamentMatch, b: TournamentMatch, before: string)
    requires t < |matches|
    requires !Present(matches[t].player1Id) && !Present(matches[t].player2Id)
    requires before != CONFIRMED && a.resultStatus == CONFIRMED && b.resultStatus == CONFIRMED
    requires Present(a.winnerId) && Present(b.winnerId)
    requires a.nextMatch == Some(t) && b.nextMatch == Some(t)
    ensures
      var first := Advanced(matches, before, a);
      var second := Advanced(first, before, b);
      && first[t].player1Id == a.winnerId && first[t].status == matches[t].status
      && second[t].player1Id == a.winnerId && second[t].player2Id == b.winnerId
      && second[t].status == Scheduled
      && (forall k | 0 <= k < |matches| && k != t :: second[k] == matches[k])
  {
    var first := Advanced(matches, before, a);
    assert first == matches[t := Apply(matches[t], MatchUpdate(a.winnerId, None, false))];
  }

  /** A third winner sent to a match whose two slots are taken changes nothing. */
  lemma FullMatchIsNeverOverwritten(matches: seq<TournamentMatch>, before: string, after: TournamentMatch)
    requires after.nextMatch.Some? && after.nextMatch.value < |matches|
    requires Present(matches[after.nextMatch.value].player1Id) && Present(matches[after.nextMatch.value].player2Id)
    ensures Advanced(matches, before, after) == matches
  {
  }
}
