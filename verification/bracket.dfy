/**
 * The bracket generator (`generateBracket`): the checks it makes before
 * writing anything, the Fisher-Yates shuffle of the registrations, the
 * placeholder layout (module BracketLayout), the round-1 pairing with at
 * most one bye, and the post-commit advance of the bye winner.
 *
 * The random index of each shuffle step is a parameter: `pick[i]` is the
 * `j` chosen when swapping position i, with 0 <= j <= i.
 */
module Bracket {
  import opened Common
  import opened Tournament
  import opened BracketLayout

  const ACTIVE := "active"

  datatype ErrorKind =
    | InvalidArgument
    | Unauthenticated
    | NotFound
    | PermissionDenied
    | FailedPrecondition
    | Internal

  /**
   * A callable request: the tournament id ("" when missing) and the
   * caller's uid, `None` when the request carries no auth object at all.
   * The payload itself is taken to be an object; a call with no payload,
   * which fails on reading its tournament id, is not represented.
   */
  datatype Request = Request(tournamentId: string, uid: Option<UserId>)

  /** A tournament document; a missing `admins` array is the empty sequence. */
  datatype TournamentDoc = TournamentDoc(organizerId: UserId, admins: seq<UserId>, status: string)

  /**
   * The outcome of one successful call. `matches` and `tournament` are what
   * the commit writes; `participants` is the shuffled order the round-1
   * slots are filled from, which is never stored and is kept here only so
   * that properties can refer to it.
   */
  datatype Bracket = Bracket(participants: seq<UserId>, matches: seq<TournamentMatch>, tournament: TournamentDoc)

  // ---- Shuffle ----

  /** Valid random choices for a list of n: the j picked at step i lies in [0, i]. */
  predicate ValidPicks(pick: seq<nat>, n: nat)
  {
    |pick| == n && forall i | 0 <= i < n :: pick[i] <= i
  }

  function Swap(s: seq<UserId>, i: nat, j: nat): (r: seq<UserId>)
    requires i < |s| && j < |s|
    ensures |r| == |s| && r[i] == s[j] && r[j] == s[i]
    ensures forall k | 0 <= k < |s| && k != i && k != j :: r[k] == s[k]
  {
    s[i := s[j]][j := s[i]]
  }

  /** The steps i, i-1, ..., 1 of the shuffle, applied to s. */
  function ShuffleDown(s: seq<UserId>, pick: seq<nat>, i: int): (r: seq<UserId>)
    requires ValidPicks(pick, |s|) && i < |s|
    ensures |r| == |s|
    decreases i
  {
    if i <= 0 then s else ShuffleDown(Swap(s, i, pick[i]), pick, i - 1)
  }

  /** The whole shuffle, from the last position down to position 1. */
  function Shuffled(s: seq<UserId>, pick: seq<nat>): (r: seq<UserId>)
    requires ValidPicks(pick, |s|)
    ensures |r| == |s|
  {
    ShuffleDown(s, pick, |s| - 1)
  }

  lemma SwapPermutes(s: seq<UserId>, i: nat, j: nat)
    requires i < |s| && j < |s|
    ensures multiset(Swap(s, i, j)) == multiset(s)
  {
    if i != j {
      var t := s[i := s[j]];
      assert multiset(t) == multiset(s) - multiset{s[i]} + multiset{s[j]};
      assert multiset(t[j := s[i]]) == multiset(t) - multiset{s[j]} + multiset{s[i]};
    }
  }

  /**
   * Whatever indices are picked, the shuffle leaves the same participants:
   * same length and same multiset.
   */
  lemma {:induction false} ShuffleIsPermutation(s: seq<UserId>, pick: seq<nat>, i: int)
    requires ValidPicks(pick, |s|) && i < |s|
    ensures |ShuffleDown(s, pick, i)| == |s|
    ensures multiset(ShuffleDown(s, pick, i)) == multiset(s)
    decreases i
  {
    if i > 0 {
      SwapPermutes(s, i, pick[i]);
      ShuffleIsPermutation(Swap(s, i, pick[i]), pick, i - 1);
    }
  }

  predicate Distinct(s: seq<UserId>)
  {
    forall a, b | 0 <= a < b < |s| :: s[a] != s[b]
  }

  /** Distinct registration ids stay distinct through the shuffle. */
  lemma {:induction false} ShuffleKeepsDistinct(s: seq<UserId>, pick: seq<nat>, i: int)
    requires ValidPicks(pick, |s|) && i < |s| && Distinct(s)
    ensures Distinct(ShuffleDown(s, pick, i))
    decreases i
  {
    if i > 0 {
      var t := Swap(s, i, pick[i]);
      forall a, b | 0 <= a < b < |t| ensures t[a] != t[b] {
        var a' := if a == i then pick[i] else if a == pick[i] then i else a;
        var b' := if b == i then pick[i] else if b == pick[i] then i else b;
        assert t[a] == s[a'] && t[b] == s[b'];
        assert a' != b';
      }
      ShuffleKeepsDistinct(t, pick, i - 1);
    }
  }

  /** The in-place Fisher-Yates loop over the registration array. */
  method Shuffle(a: array<UserId>, pick: seq<nat>)
    requires ValidPicks(pick, a.Length)
    modifies a
    ensures a[..] == Shuffled(old(a[..]), pick)
  {
    var i := a.Length - 1;
    while i > 0
      invariant -1 <= i < a.Length
      invariant ShuffleDown(a[..], pick, i) == Shuffled(old(a[..]), pick)
    {
      var j := pick[i];
      ghost var before := a[..];
      var t := a[i];
      a[i] := a[j];
      a[j] := t;
      assert a[..] == Swap(before, i, j);
      i := i - 1;
    }
  }

  // ---- Round-1 pairing ----

  /** Slots that receive participants: ceil(n/2). */
  function FilledSlots(n: nat): nat
  {
    (n + 1) / 2
  }

  /**
   * Slot k of round 1 receives participants 2k and 2k+1; without a second
   * (truthy) player the slot is a bye: completed, its player 1 the winner.
   */
  function Pair(slot: TournamentMatch, p: seq<UserId>, k: nat): TournamentMatch
    requires 2 * k < |p|
  {
    var second := if 2 * k + 1 < |p| then Some(p[2 * k + 1]) else None;
    var paired := slot.(player1Id := Some(p[2 * k]), player2Id := second, status := Scheduled);
    if !Present(second) then paired.(status := Completed, winnerId := Some(p[2 * k])) else paired
  }

  /** The first ceil(n/2) slots paired, the others as they were. */
  function PairedRoundOne(slots: seq<TournamentMatch>, p: seq<UserId>, upTo: nat): (r: seq<TournamentMatch>)
    requires upTo <= FilledSlots(|p|) && upTo <= |slots|
    ensures |r| == |slots|
  {
    seq(|slots|, k requires 0 <= k < |slots| => if k < upTo then Pair(slots[k], p, k) else slots[k])
  }

  /** The round-1 loop: consecutive shuffled participants, two per slot. */
  method FillRoundOne(slots: seq<TournamentMatch>, participants: seq<UserId>) returns (filled: seq<TournamentMatch>)
    requires FilledSlots(|participants|) <= |slots|
    ensures filled == PairedRoundOne(slots, participants, FilledSlots(|participants|))
  {
    filled := slots;
    var firstRoundMatchIndex := 0;
    var i := 0;
    while i < |participants|
      invariant i == 2 * firstRoundMatchIndex
      invariant firstRoundMatchIndex <= FilledSlots(|participants|)
      invariant filled == PairedRoundOne(slots, participants, firstRoundMatchIndex)
    {
      var player2Id := if i + 1 < |participants| then Some(participants[i + 1]) else None;
      var update := filled[firstRoundMatchIndex].(player1Id := Some(participants[i]), player2Id := player2Id, status := Scheduled);
      if !Present(update.player2Id) {
        update := update.(status := Completed, winnerId := update.player1Id);
      }
      filled := filled[firstRoundMatchIndex := update];
      firstRoundMatchIndex := firstRoundMatchIndex + 1;
      i := i + 2;
    }
  }

  // ---- The generator ----

  /** The caller is the organiser or one of the admins. */
  predicate MayGenerate(t: TournamentDoc, uid: UserId)
  {
    t.organizerId == uid || uid in t.admins
  }

  /** Every check passes. */
  predicate Accepted(request: Request, tournament: Option<TournamentDoc>, registrations: seq<UserId>)
  {
    && request.uid.Some?
    && request.tournamentId != ""
    && request.uid.value != ""
    && tournament.Some?
    && MayGenerate(tournament.value, request.uid.value)
    && |registrations| >= 2
  }

  /** The matches of the committed bracket for shuffled participants p. */
  function BracketMatches(p: seq<UserId>): (m: seq<TournamentMatch>)
    requires |p| >= 2
    ensures |m| == |Slots(TotalRounds(|p|))|
  {
    RoundOneCapacity(|p|);
    PairedRoundOne(Slots(TotalRounds(|p|)), p, FilledSlots(|p|))
  }

  /**
   * `generateBracket` up to the commit. A request without an auth object
   * fails on reading the uid before any check (an "internal" error); then
   * the checks reject in the source's order, and otherwise the laid-out and
   * paired matches and the activated tournament are committed; the result
   * also carries the shuffled order the round-1 slots were filled from,
   * which is never stored.
   */
  method GenerateBracket(request: Request, tournament: Option<TournamentDoc>, registrations: seq<UserId>, pick: seq<nat>)
    returns (result: Result<Bracket, ErrorKind>)
    requires ValidPicks(pick, |registrations|)
    ensures request.uid.None? ==> result == Err(Internal)
    ensures request.uid.Some? && request.tournamentId == "" ==> result == Err(InvalidArgument)
    ensures request.uid.Some? && request.tournamentId != "" && request.uid.value == "" ==> result == Err(Unauthenticated)
    ensures request.uid.Some? && request.tournamentId != "" && request.uid.value != "" && tournament.None?
      ==> result == Err(NotFound)
    ensures (request.uid.Some? && request.tournamentId != "" && request.uid.value != "" && tournament.Some?
      && !MayGenerate(tournament.value, request.uid.value)) ==> result == Err(PermissionDenied)
    ensures (request.uid.Some? && request.tournamentId != "" && request.uid.value != "" && tournament.Some?
      && MayGenerate(tournament.value, request.uid.value) && |registrations| < 2) ==> result == Err(FailedPrecondition)
    ensures result.Ok? <==> Accepted(request, tournament, registrations)
    ensures result.Ok? ==>
      && result.value.participants == Shuffled(registrations, pick)
      && result.value.matches == BracketMatches(result.value.participants)
      && result.value.tournament == tournament.value.(status := ACTIVE)
  {
    if request.uid.None? {
      return Err(Internal);
    }
    var uid := request.uid.value;
    if request.tournamentId == "" {
      return Err(InvalidArgument);
    }
    if uid == "" {
      return Err(Unauthenticated);
    }
    if tournament.None? {
      return Err(NotFound);
    }
    var tournamentData := tournament.value;
    var isAdmin := uid in tournamentData.admins;
    if tournamentData.organizerId != uid && !isAdmin {
      return Err(PermissionDenied);
    }
    if |registrations| < 2 {
      return Err(FailedPrecondition);
    }

    var participants := new UserId[|registrations|](i requires 0 <= i < |registrations| => registrations[i]);
    assert participants[..] == registrations;
    Shuffle(participants, pick);

    var n := participants.Length;
    var totalRounds := TotalRounds(n);
    var slots := LayOutSlots(totalRounds);
    RoundOneSlots(totalRounds, 0);
    RoundOneCapacity(n);
    var matches := FillRoundOne(slots, participants[..]);
    result := Ok(Bracket(participants[..], matches, tournamentData.(status := ACTIVE)));
  }

  // ---- Properties of the committed bracket ----

  /**
   * The ceil(n/2) paired slots fit in round 1, which has 2^(R-1) slots,
   * so pairing never reaches a later round.
   */
  lemma RoundOneCapacity(n: nat)
    requires n >= 2
    ensures TotalRounds(n) >= 1
    ensures FilledSlots(n) <= Pow2(TotalRounds(n) - 1) < Pow2(TotalRounds(n))
  {
  }

  /**
   * Slot k of the committed bracket: round 1 exactly for the first 2^(R-1)
   * slots; the first ceil(n/2) slots are paired placeholders of round 1;
   * every other slot is still an empty, pending placeholder.
   */
  lemma BracketSlot(p: seq<UserId>, k: nat)
    requires |p| >= 2 && k < |BracketMatches(p)|
    ensures var rounds := TotalRounds(|p|); var m := BracketMatches(p)[k];
      && (m.round == 1 <==> k < Pow2(rounds - 1))
      && m.resultStatus == NO_RESULT
      && m.nextMatch == Slots(rounds)[k].nextMatch
      && (k < FilledSlots(|p|) ==> m == Pair(Placeholder(1, k, NextSlot(rounds, 1, k)), p, k))
      && (k >= FilledSlots(|p|) ==>
            m.player1Id == None && m.player2Id == None && m.winnerId == None && m.status == Pending)
  {
    var rounds := TotalRounds(|p|);
    RoundOneCapacity(|p|);
    var slot := LaidOutSlot(rounds, k);
    var m := BracketMatches(p)[k];
    BracketMatchAt(p, k);
    if k < FilledSlots(|p|) {
      assert slot.round == 1;
    }
  }

  /** Slot k of the layout is the placeholder of match k of round 1 when it lies in round 1. */
  lemma LaidOutSlot(rounds: nat, k: nat) returns (slot: TournamentMatch)
    requires rounds >= 1 && k < |Slots(rounds)|
    ensures slot == Slots(rounds)[k]
    ensures slot.round == 1 <==> k < Pow2(rounds - 1)
    ensures slot.resultStatus == NO_RESULT && slot.status == Pending
    ensures slot.player1Id == None && slot.player2Id == None && slot.winnerId == None
    ensures slot.round == 1 ==> slot == Placeholder(1, k, NextSlot(rounds, 1, k))
  {
    RoundOneSlots(rounds, k);
    var r, i := Locate(rounds, rounds, k);
    LayoutAt(rounds, rounds, r, i);
    slot := Slots(rounds)[k];
  }

  /** The committed slot k: the paired layout slot for the first ceil(n/2), the layout slot after. */
  lemma BracketMatchAt(p: seq<UserId>, k: nat)
    requires |p| >= 2 && k < |BracketMatches(p)|
    ensures var slot := Slots(TotalRounds(|p|))[k]; var m := BracketMatches(p)[k];
      && m == (if k < FilledSlots(|p|) then Pair(slot, p, k) else slot)
      && m.round == slot.round && m.resultStatus == slot.resultStatus && m.nextMatch == slot.nextMatch
  {
    RoundOneCapacity(|p|);
  }

  /**
   * Each shuffled participant sits in exactly one slot: position t in slot
   * floor(t/2) (as player 1 when t is even, player 2 when odd), that slot is
   * a round-1 slot, and no other slot holds that participant.
   */
  lemma EachParticipantInOneSlot(p: seq<UserId>, t: nat)
    requires |p| >= 2 && Distinct(p) && t < |p|
    ensures var m := BracketMatches(p);
      && t / 2 < |m| && m[t / 2].round == 1
      && (if t % 2 == 0 then m[t / 2].player1Id else m[t / 2].player2Id) == Some(p[t])
      && forall k | 0 <= k < |m| && (m[k].player1Id == Some(p[t]) || m[k].player2Id == Some(p[t])) :: k == t / 2
  {
    var m := BracketMatches(p);
    var rounds := TotalRounds(|p|);
    RoundOneCapacity(|p|);
    var slot := LaidOutSlot(rounds, t / 2);
    BracketMatchAt(p, t / 2);
    PairedPlayers(p, t / 2);
    assert 2 * (t / 2) == t || 2 * (t / 2) + 1 == t;
    forall k | 0 <= k < |m| && (m[k].player1Id == Some(p[t]) || m[k].player2Id == Some(p[t]))
      ensures k == t / 2
    {
      SlotHoldsOnlyItsPair(p, t, k);
    }
  }

  /** The players of committed slot k: participants 2k and 2k+1 when paired, none otherwise. */
  lemma PairedPlayers(p: seq<UserId>, k: nat)
    requires |p| >= 2 && k < |BracketMatches(p)|
    ensures var m := BracketMatches(p)[k];
      && (k < FilledSlots(|p|) ==>
            && 2 * k < |p|
            && m.player1Id == Some(p[2 * k])
            && m.player2Id == (if 2 * k + 1 < |p| then Some(p[2 * k + 1]) else None))
      && (k >= FilledSlots(|p|) ==> m.player1Id == None && m.player2Id == None)
  {
    var slot := LaidOutSlot(TotalRounds(|p|), k);
    BracketMatchAt(p, k);
  }

  /** A slot holding the participant at position t is slot floor(t/2). */
  lemma SlotHoldsOnlyItsPair(p: seq<UserId>, t: nat, k: nat)
    requires |p| >= 2 && Distinct(p) && t < |p| && k < |BracketMatches(p)|
    requires BracketMatches(p)[k].player1Id == Some(p[t]) || BracketMatches(p)[k].player2Id == Some(p[t])
    ensures k == t / 2
  {
    PairedPlayers(p, k);
    var m := BracketMatches(p)[k];
    if m.player1Id == Some(p[t]) {
      assert p[2 * k] == p[t];
      assert 2 * k == t;
    } else {
      assert 2 * k + 1 < |p| && p[2 * k + 1] == p[t];
      assert 2 * k + 1 == t;
    }
  }

  /**
   * With non-empty registration ids there is at most one bye: slot k is
   * completed exactly when n is odd and k is the last paired slot; the bye
   * has no player 2 and its winner is its player 1, the last participant.
   * Every other paired slot is scheduled with two players.
   */
  lemma ByeExactlyWhenOdd(p: seq<UserId>, k: nat)
    requires |p| >= 2 && forall t | 0 <= t < |p| :: p[t] != ""
    requires k < |BracketMatches(p)|
    ensures var m := BracketMatches(p)[k];
      && (m.status == Completed <==> |p| % 2 == 1 && k == FilledSlots(|p|) - 1)
      && (m.status == Completed ==>
            m.player2Id == None && m.winnerId == m.player1Id && m.player1Id == Some(p[|p| - 1]))
      && (k < |p| / 2 ==> m.status == Scheduled && Present(m.player1Id) && Present(m.player2Id))
  {
    var rounds := TotalRounds(|p|);
    RoundOneCapacity(|p|);
    var slot := LaidOutSlot(rounds, k);
    BracketMatchAt(p, k);
    PairingArithmetic(|p|, k);
    if k < FilledSlots(|p|) {
      assert p[2 * k] != "";
      assert 2 * k + 1 < |p| ==> p[2 * k + 1] != "";
      PairShape(slot, p, k);
    }
  }

  /** Which paired slot is the bye, in numbers: the last one, when n is odd. */
  lemma PairingArithmetic(n: nat, k: nat)
    ensures k < FilledSlots(n) ==>
      && (2 * k + 1 < n <==> !(n % 2 == 1 && k == FilledSlots(n) - 1))
      && (2 * k + 1 >= n ==> 2 * k == n - 1)
    ensures k < n / 2 <==> 2 * k + 1 < n
    ensures k >= FilledSlots(n) ==> k != FilledSlots(n) - 1
  {
  }

  /**
   * A paired slot: player 1 is participant 2k; with a participant 2k+1 it
   * is scheduled, without one it is a completed bye won by player 1.
   */
  lemma PairShape(slot: TournamentMatch, p: seq<UserId>, k: nat)
    requires 2 * k < |p| && p[2 * k] != "" && (2 * k + 1 < |p| ==> p[2 * k + 1] != "")
    ensures var m := Pair(slot, p, k);
      && m.player1Id == Some(p[2 * k])
      && (2 * k + 1 < |p| ==> m.status == Scheduled && m.player2Id == Some(p[2 * k + 1]) && m.winnerId == slot.winnerId)
      && (2 * k + 1 >= |p| ==> m.status == Completed && m.player2Id == None && m.winnerId == Some(p[2 * k]))
  {
  }

  // ---- Findings ----

  /** The number of match ids the source allocates: n - 1. */
  function AllocatedMatchIds(n: nat): nat
  {
    if n == 0 then 0 else n - 1
  }

  /** Match ids the layout needs: one per slot, 2^R - 1. */
  function RequiredMatchIds(n: nat): (r: nat)
    requires n >= 2
    ensures r == |Slots(TotalRounds(n))|
    ensures r >= AllocatedMatchIds(n)
  {
    Pow2(TotalRounds(n)) - 1
  }

  /**
   * As written, every slot index (and so every link target) is within the
   * n - 1 allocated ids exactly when n is a power of two.
   */
  lemma AllocatedIdsCoverSlotsIffPowerOfTwo(n: nat)
    requires n >= 2
    ensures |Slots(TotalRounds(n))| <= AllocatedMatchIds(n) <==> PowerOfTwo(n)
  {
    PowerOfTwoIffExact(n);
    var size := |Slots(TotalRounds(n))|;
    if !PowerOfTwo(n) {
      assert size - 1 >= AllocatedMatchIds(n);
    }
  }

  /**
   * Three participants: three slots are laid out, only two ids exist, and
   * both round-1 slots link to slot 2, which has no id.
   */
  lemma ThreeParticipantsLackAnId()
    ensures |Slots(TotalRounds(3))| == 3 && AllocatedMatchIds(3) == 2
    ensures Slots(TotalRounds(3))[0].nextMatch == Some(2) && Slots(TotalRounds(3))[1].nextMatch == Some(2)
  {
    assert TotalRounds(3) == 2;
    LinksGoForward(2, 0);
    LinksGoForward(2, 1);
  }

  /**
   * With one id per slot every slot and every link target has an id, for
   * every participant count.
   */
  lemma RequiredIdsCoverEveryLink(n: nat, k: nat)
    requires n >= 2 && k < |Slots(TotalRounds(n))|
    ensures k < RequiredMatchIds(n)
    ensures Slots(TotalRounds(n))[k].nextMatch.Some? ==> Slots(TotalRounds(n))[k].nextMatch.value < RequiredMatchIds(n)
  {
    LinksGoForward(TotalRounds(n), k);
  }

  /**
   * The source's post-commit call for a bye slot k: before-status
   * "pending", after-data the committed slot as it is.
   */
  function ByeAdvance(matches: seq<TournamentMatch>, k: nat): Advance
    requires k < |matches|
  {
    AdvanceWinner(PENDING, matches[k], Lookup(matches, matches[k].nextMatch))
  }

  /**
   * As written, the synthetic call is turned away by the advancer's own
   * gate for every bye slot (round 1, completed): the slot's result status
   * is still "no_result", so the bye winner never moves on.
   */
  lemma ByeAdvanceIsSkipped(p: seq<UserId>, k: nat)
    requires |p| >= 2 && k < |BracketMatches(p)|
    requires BracketMatches(p)[k].round == 1 && BracketMatches(p)[k].status == Completed
    ensures ByeAdvance(BracketMatches(p), k) == Skipped
  {
    var rounds := TotalRounds(|p|);
    RoundOneCapacity(|p|);
    var r, i := Locate(rounds, rounds, k);
    LayoutAt(rounds, rounds, r, i);
  }

  /** The corrected call: the after-data carries result status "confirmed". */
  function ConfirmedByeAdvance(matches: seq<TournamentMatch>, k: nat): Advance
    requires k < |matches|
  {
    AdvanceWinner(PENDING, matches[k].(resultStatus := CONFIRMED), Lookup(matches, matches[k].nextMatch))
  }

  /**
   * With the corrected call the bye winner (the last participant) is placed
   * as player 1 of the round-2 match the bye slot links to, and that match is
   * not yet scheduled. Whether a second player ever arrives depends on the
   * bye slot's sibling: for 5, 9, 13, ... participants the sibling is a
   * round-1 slot that gets no players, so no second winner comes.
   */
  lemma ConfirmedByeReachesRoundTwo(p: seq<UserId>)
    requires |p| >= 3 && |p| % 2 == 1 && forall t | 0 <= t < |p| :: p[t] != ""
    ensures var m := BracketMatches(p); var b := FilledSlots(|p|) - 1;
      && b < |m| && m[b].nextMatch.Some? && m[b].nextMatch.value < |m| && m[m[b].nextMatch.value].round == 2
      && ConfirmedByeAdvance(m, b) == Update(m[b].nextMatch.value, MatchUpdate(Some(p[|p| - 1]), None, false))
  {
    var n := |p|;
    var m := BracketMatches(p);
    var b := FilledSlots(n) - 1;
    var w := p[n - 1];
    ByeSlotOfOddCount(p);
    var next := ByeLinkTarget(p);
    var bye := m[b];
    assert bye.nextMatch == Some(next) && next < |m|;
    assert Lookup(m, bye.nextMatch) == Some(m[next]);
    assert Place(m[next], w) == Some(MatchUpdate(Some(w), None, false));
  }

  /** For odd n the last paired slot is a bye won by the last participant. */
  lemma ByeSlotOfOddCount(p: seq<UserId>)
    requires |p| >= 3 && |p| % 2 == 1 && forall t | 0 <= t < |p| :: p[t] != ""
    ensures var m := BracketMatches(p); var b := FilledSlots(|p|) - 1;
      && b < |m| && b < Pow2(TotalRounds(|p|) - 1)
      && m[b].winnerId == Some(p[|p| - 1]) && p[|p| - 1] != ""
      && m[b].nextMatch == Slots(TotalRounds(|p|))[b].nextMatch
  {
    var n := |p|;
    var b := FilledSlots(n) - 1;
    RoundOneCapacity(n);
    var slot := LaidOutSlot(TotalRounds(n), b);
    BracketMatchAt(p, b);
    PairingArithmetic(n, b);
    assert p[2 * b] != "";
    PairShape(slot, p, b);
  }

  /** The bye slot links to an empty round-2 slot of the committed bracket. */
  lemma ByeLinkTarget(p: seq<UserId>) returns (next: nat)
    requires |p| >= 3 && |p| % 2 == 1
    ensures var m := BracketMatches(p); var b := FilledSlots(|p|) - 1;
      && b < |m|
      && Slots(TotalRounds(|p|))[b].nextMatch == Some(next) && next < |m|
      && m[next].round == 2 && m[next].player1Id == None && m[next].player2Id == None
  {
    var n := |p|;
    var rounds := TotalRounds(n);
    var b := FilledSlots(n) - 1;
    RoundOneCapacity(n);
    assert rounds >= 2 by {
      assert Pow2(1) == 2;
    }
    var slotB := LaidOutSlot(rounds, b);
    LinksGoForward(rounds, b);
    next := slotB.nextMatch.value;
    var slotN := LaidOutSlot(rounds, next);
    BracketMatchAt(p, next);
  }
}
