/**
 * The match-confirmation statistics aggregator (`updatePlayerStatsOnMatchConfirmed`).
 *
 * When a match document is updated for the first time into result status
 * "confirmed", the handler copies every existing participant profile into a
 * map, runs three ordered passes over the copies (peer ratings, matches
 * played, 1v1 result and Elo) and writes every copy back in one batch.
 *
 * The map of copied profiles is the state of class `PlayerUpdates`; each pass
 * is a method proved against a specification function on maps, and the
 * properties of the whole pipeline are proved about those functions in
 * module `StatsProps`.
 */
module Stats {
  import opened Common

  /** The punctuality marker of a peer rating that reports a no-show. */
  const NO_SHOW := "gelmedi"
  const DRAW := "draw"
  const TEAM1 := "team1"
  const DEFAULT_SCORE: real := 5.0
  const DEFAULT_ELO: int := 1200

  /**
   * A player profile as stored. Every statistic may be missing from the
   * document (`None`); counters are never negative.
   */
  datatype Profile = Profile(
    eloRating: Option<int>,
    totalMatchesPlayed: Option<nat>,
    matchesWon: Option<nat>,
    matchesLost: Option<nat>,
    noShows: Option<nat>,
    sportsmanshipScore: Option<real>)

  /** A peer rating submitted for one participant of the match. */
  datatype Rating = Rating(ratedUserId: UserId, punctuality: string, sportsmanship: real)

  /**
   * A (non-tournament) match document. A missing `winner` is the empty
   * string and a missing `playerRatings` the empty sequence; both are
   * treated alike by the handler.
   */
  datatype Match = Match(
    resultStatus: string,
    team1Players: seq<UserId>,
    team2Players: seq<UserId>,
    winner: string,
    playerRatings: seq<Rating>)

  /** The Elo formula: (winner rating, loser rating) before the match to their new values. */
  type EloRule = (int, int) -> (int, int)

  // Field readers with the source's `||` defaults: a missing or zero value
  // reads as the default.

  function Counter(c: Option<nat>): nat
  {
    if c.Some? then c.value else 0
  }

  function Score(p: Profile): real
  {
    if p.sportsmanshipScore.Some? && p.sportsmanshipScore.value != 0.0
    then p.sportsmanshipScore.value else DEFAULT_SCORE
  }

  function Elo(p: Profile): int
  {
    if p.eloRating.Some? && p.eloRating.value != 0 then p.eloRating.value else DEFAULT_ELO
  }

  /** The handler's gate: the update is the first transition into "confirmed". */
  predicate FirstConfirmation(before: Match, after: Match)
  {
    before.resultStatus != CONFIRMED && after.resultStatus == CONFIRMED
  }

  /** Participant ids in the order the handler gathers them. */
  function PlayerIds(m: Match): seq<UserId>
  {
    m.team1Players + m.team2Players
  }

  /** The copies of the participant profiles that exist in the store. */
  function Fetched(store: map<UserId, Profile>, ids: seq<UserId>): (r: map<UserId, Profile>)
    ensures r.Keys == set id | id in ids && id in store
    ensures forall id | id in r :: r[id] == store[id]
  {
    map id | id in ids && id in store :: store[id]
  }

  // ---- Pass 1: peer ratings ----

  /** One rating applied to the rated profile: no-show counter and rolling sportsmanship average. */
  function Rate(p: Profile, r: Rating): Profile
  {
    var p' := if r.punctuality == NO_SHOW then p.(noShows := Some(Counter(p.noShows) + 1)) else p;
    p'.(sportsmanshipScore := Some(RollingAverage(Score(p'), Counter(p'.totalMatchesPlayed), r.sportsmanship)))
  }

  /** The new average when one more score joins `played` earlier ones averaging `current`. */
  function RollingAverage(current: real, played: nat, newScore: real): real
  {
    (current * played as real + newScore) / (played as real + 1.0)
  }

  function RateOne(m: map<UserId, Profile>, r: Rating): map<UserId, Profile>
  {
    if r.ratedUserId in m then m[r.ratedUserId := Rate(m[r.ratedUserId], r)] else m
  }

  /** The ratings pass: the ratings applied one after another, in order. */
  function RatingsApplied(m: map<UserId, Profile>, rs: seq<Rating>): (r: map<UserId, Profile>)
    ensures r.Keys == m.Keys
  {
    if rs == [] then m else RateOne(RatingsApplied(m, rs[..|rs| - 1]), rs[|rs| - 1])
  }

  // ---- Pass 2: matches played ----

  function CountOne(m: map<UserId, Profile>, id: UserId): map<UserId, Profile>
  {
    if id in m
    then m[id := m[id].(totalMatchesPlayed := Some(Counter(m[id].totalMatchesPlayed) + 1))]
    else m
  }

  /** The increment pass over every participant id, in order. */
  function MatchesCounted(m: map<UserId, Profile>, ids: seq<UserId>): (r: map<UserId, Profile>)
    ensures r.Keys == m.Keys
  {
    if ids == [] then m else CountOne(MatchesCounted(m, ids[..|ids| - 1]), ids[|ids| - 1])
  }

  // ---- Pass 3: win/loss and Elo of a decisive 1v1 match ----

  /** A truthy winner other than "draw", with exactly one player per team. */
  predicate Decisive1v1(mt: Match)
  {
    mt.winner != "" && mt.winner != DRAW && |mt.team1Players| == 1 && |mt.team2Players| == 1
  }

  /** Any winner value other than "team1" designates team 2. */
  function WinnerId(mt: Match): UserId
    requires |mt.team1Players| == 1 && |mt.team2Players| == 1
  {
    if mt.winner == TEAM1 then mt.team1Players[0] else mt.team2Players[0]
  }

  function LoserId(mt: Match): UserId
    requires |mt.team1Players| == 1 && |mt.team2Players| == 1
  {
    if mt.winner == TEAM1 then mt.team2Players[0] else mt.team1Players[0]
  }

  /** The result pass takes effect: decisive 1v1 and both profiles exist. */
  predicate ResultApplies(m: map<UserId, Profile>, mt: Match)
  {
    Decisive1v1(mt) && WinnerId(mt) in m && LoserId(mt) in m
  }

  /**
   * The result pass. The winner's and the loser's fields are written one
   * after the other, so when both ids name one profile the loser's writes
   * are the ones that remain.
   */
  function ResultRecorded(m: map<UserId, Profile>, mt: Match, elo: EloRule): (r: map<UserId, Profile>)
    ensures r.Keys == m.Keys
    ensures !ResultApplies(m, mt) ==> r == m
  {
    if !ResultApplies(m, mt) then m
    else
      var w, l := WinnerId(mt), LoserId(mt);
      var m1 := m[w := m[w].(matchesWon := Some(Counter(m[w].matchesWon) + 1))];
      var m2 := m1[l := m1[l].(matchesLost := Some(Counter(m1[l].matchesLost) + 1))];
      var ratings := elo(Elo(m2[w]), Elo(m2[l]));
      var m3 := m2[w := m2[w].(eloRating := Some(ratings.0))];
      m3[l := m3[l].(eloRating := Some(ratings.1))]
  }

  /** The three passes in the source's order. */
  function Aggregate(m: map<UserId, Profile>, mt: Match, elo: EloRule): map<UserId, Profile>
  {
    ResultRecorded(MatchesCounted(RatingsApplied(m, mt.playerRatings), PlayerIds(mt)), mt, elo)
  }

  /**
   * What the handler writes for one update of a match document: nothing
   * (`None`) unless the update is the first confirmation, otherwise one
   * profile per existing participant.
   */
  function StatsUpdate(before: Match, after: Match, store: map<UserId, Profile>, elo: EloRule): (r: Option<map<UserId, Profile>>)
    ensures r.Some? <==> FirstConfirmation(before, after)
  {
    if FirstConfirmation(before, after)
    then Some(Aggregate(Fetched(store, PlayerIds(after)), after, elo))
    else None
  }

  /** The `playerUpdates` map of the handler, updated in place by its passes. */
  class PlayerUpdates {
    var profiles: map<UserId, Profile>

    constructor ()
      ensures profiles == map[]
    {
      profiles := map[];
    }

    /** Copies every fetched profile that exists into the map. */
    method LoadExisting(store: map<UserId, Profile>, ids: seq<UserId>)
      requires profiles == map[]
      modifies this
      ensures profiles == Fetched(store, ids)
    {
      var i := 0;
      while i < |ids|
        invariant 0 <= i <= |ids|
        invariant profiles == Fetched(store, ids[..i])
      {
        assert ids[..i + 1] == ids[..i] + [ids[i]];
        if ids[i] in store {
          profiles := profiles[ids[i] := store[ids[i]]];
        }
        i := i + 1;
      }
      assert ids[..i] == ids;
    }

    /** Pass 1: every peer rating that targets a copied profile. */
    method ApplyRatings(ratings: seq<Rating>)
      modifies this
      ensures profiles == RatingsApplied(old(profiles), ratings)
    {
      var i := 0;
      while i < |ratings|
        invariant 0 <= i <= |ratings|
        invariant profiles == RatingsApplied(old(profiles), ratings[..i])
      {
        assert ratings[..i + 1][..i] == ratings[..i];
        ghost var done := profiles;
        var rating := ratings[i];
        if rating.ratedUserId in profiles {
          var profile := profiles[rating.ratedUserId];
          if rating.punctuality == NO_SHOW {
            profile := profile.(noShows := Some(Counter(profile.noShows) + 1));
          }
          var currentScore := Score(profile);
          var totalMatches := Counter(profile.totalMatchesPlayed);
          var newAverage := (currentScore * totalMatches as real + rating.sportsmanship) / (totalMatches as real + 1.0);
          profile := profile.(sportsmanshipScore := Some(newAverage));
          assert newAverage == RollingAverage(currentScore, totalMatches, rating.sportsmanship);
          profiles := profiles[rating.ratedUserId := profile];
        }
        assert profiles == RateOne(done, rating);
        i := i + 1;
      }
      assert ratings[..i] == ratings;
    }

    /** Pass 2: one more match played per occurrence of an id among the participants. */
    method CountMatchesPlayed(ids: seq<UserId>)
      modifies this
      ensures profiles == MatchesCounted(old(profiles), ids)
    {
      var i := 0;
      while i < |ids|
        invariant 0 <= i <= |ids|
        invariant profiles == MatchesCounted(old(profiles), ids[..i])
      {
        assert ids[..i + 1][..i] == ids[..i];
        var id := ids[i];
        if id in profiles {
          var player := profiles[id];
          profiles := profiles[id := player.(totalMatchesPlayed := Some(Counter(player.totalMatchesPlayed) + 1))];
        }
        i := i + 1;
      }
      assert ids[..i] == ids;
    }

    /** Pass 3: win/loss counters and Elo of a decisive 1v1 match. */
    method RecordResult(mt: Match, elo: EloRule)
      modifies this
      ensures profiles == ResultRecorded(old(profiles), mt, elo)
    {
      if Decisive1v1(mt) {
        var winnerId := if mt.winner == TEAM1 then mt.team1Players[0] else mt.team2Players[0];
        var loserId := if mt.winner == TEAM1 then mt.team2Players[0] else mt.team1Players[0];
        assert winnerId == WinnerId(mt) && loserId == LoserId(mt);
        if winnerId in profiles && loserId in profiles {
          profiles := profiles[winnerId := profiles[winnerId].(matchesWon := Some(Counter(profiles[winnerId].matchesWon) + 1))];
          profiles := profiles[loserId := profiles[loserId].(matchesLost := Some(Counter(profiles[loserId].matchesLost) + 1))];
          var winnerElo := Elo(profiles[winnerId]);
          var loserElo := Elo(profiles[loserId]);
          var ratings := elo(winnerElo, loserElo);
          profiles := profiles[winnerId := profiles[winnerId].(eloRating := Some(ratings.0))];
          profiles := profiles[loserId := profiles[loserId].(eloRating := Some(ratings.1))];
        }
      }
    }
  }

  /**
   * The handler: gate, copy the existing profiles, run the three passes in
   * order, and return the profiles the batch writes (`None`: no write).
   */
  method UpdatePlayerStatsOnMatchConfirmed(before: Match, after: Match, store: map<UserId, Profile>, elo: EloRule)
    returns (writes: Option<map<UserId, Profile>>)
    ensures writes == StatsUpdate(before, after, store, elo)
  {
    if before.resultStatus == CONFIRMED || after.resultStatus != CONFIRMED {
      return None;
    }
    var playerIds := after.team1Players + after.team2Players;
    var playerUpdates := new PlayerUpdates();
    playerUpdates.LoadExisting(store, playerIds);
    playerUpdates.ApplyRatings(after.playerRatings);
    playerUpdates.CountMatchesPlayed(playerIds);
    playerUpdates.RecordResult(after, elo);
    writes := Some(playerUpdates.profiles);
  }
}
