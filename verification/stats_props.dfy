/**
 * Properties of the match-confirmation statistics aggregator: the gate, the
 * set of profiles written, and the effect of each pass on each counter.
 */
module StatsProps {
  import opened Common
  import opened Stats

  /** Number of ratings in `rs` that report `id` as a no-show. */
  function NoShowRatings(rs: seq<Rating>, id: UserId): nat
  {
    if rs == [] then 0
    else
      var r := rs[|rs| - 1];
      NoShowRatings(rs[..|rs| - 1], id) + (if r.ratedUserId == id && r.punctuality == NO_SHOW then 1 else 0)
  }

  /** What the handler writes when it fires. */
  function Written(after: Match, store: map<UserId, Profile>, elo: EloRule): map<UserId, Profile>
  {
    Aggregate(Fetched(store, PlayerIds(after)), after, elo)
  }

  // ---- The gate ----

  /**
   * Redelivering an update whose before-snapshot is already confirmed
   * writes nothing, whatever the after-snapshot holds.
   */
  lemma RedeliveryWritesNothing(before: Match, after: Match, store: map<UserId, Profile>, elo: EloRule)
    requires before.resultStatus == CONFIRMED
    ensures StatsUpdate(before, after, store, elo) == None
  {
  }

  /**
   * Along a history of snapshots in which "confirmed" is never left again,
   * once the handler has fired for update `i` it fires for no later update.
   */
  lemma FiresOnlyOnce(history: seq<Match>, i: nat, j: nat)
    requires forall a, b | 0 <= a <= b < |history| ::
      history[a].resultStatus == CONFIRMED ==> history[b].resultStatus == CONFIRMED
    requires 0 < i < j < |history|
    requires FirstConfirmation(history[i - 1], history[i])
    ensures !FirstConfirmation(history[j - 1], history[j])
  {
    assert history[j - 1].resultStatus == CONFIRMED;
  }

  // ---- Pass 1 ----

  /**
   * The ratings pass raises `noShows` by the number of no-show reports and
   * changes no field other than `noShows` and `sportsmanshipScore`; a
   * profile that no rating targets is left as it was.
   */
  lemma {:induction false} RatingsPassEffect(m: map<UserId, Profile>, rs: seq<Rating>, id: UserId)
    requires id in m
    ensures id in RatingsApplied(m, rs)
    ensures Counter(RatingsApplied(m, rs)[id].noShows) == Counter(m[id].noShows) + NoShowRatings(rs, id)
    ensures RatingsApplied(m, rs)[id]
      == m[id].(noShows := RatingsApplied(m, rs)[id].noShows,
                sportsmanshipScore := RatingsApplied(m, rs)[id].sportsmanshipScore)
    ensures (forall k | 0 <= k < |rs| :: rs[k].ratedUserId != id) ==> RatingsApplied(m, rs)[id] == m[id]
  {
    if rs != [] {
      var init := rs[..|rs| - 1];
      RatingsPassEffect(m, init, id);
      assert forall k | 0 <= k < |init| :: init[k] == rs[k];
    }
  }

  /**
   * A profile rated exactly once gets the rolling average of its stored
   * score weighted by its matches played BEFORE this match.
   */
  lemma {:induction false} SingleRatingAverage(m: map<UserId, Profile>, rs: seq<Rating>, id: UserId, k: nat)
    requires id in m
    requires k < |rs| && rs[k].ratedUserId == id
    requires forall j | 0 <= j < |rs| && j != k :: rs[j].ratedUserId != id
    ensures id in RatingsApplied(m, rs)
    ensures RatingsApplied(m, rs)[id].sportsmanshipScore
      == Some(RollingAverage(Score(m[id]), Counter(m[id].totalMatchesPlayed), rs[k].sportsmanship))
  {
    var init := rs[..|rs| - 1];
    assert forall j | 0 <= j < |init| :: init[j] == rs[j];
    RatingsPassEffect(m, init, id);
    if k < |rs| - 1 {
      SingleRatingAverage(m, init, id, k);
    }
  }

  /** A stored score as the ratings pass reads it: missing or 0.0 count as 5.0. */
  function ScoreOr(s: Option<real>): real
  {
    match s
    case Some(v) => if v == 0.0 then DEFAULT_SCORE else v
    case None => DEFAULT_SCORE
  }

  /**
   * Reference for one player's score after the ratings pass: every rating of
   * `id`, in order, folds into the running average, and each one is weighted
   * by the same `played` count.
   */
  function ScoreAfter(s: Option<real>, played: nat, rs: seq<Rating>, id: UserId): (r: Option<real>)
    ensures (forall k | 0 <= k < |rs| :: rs[k].ratedUserId != id) ==> r == s
    ensures (exists k | 0 <= k < |rs| :: rs[k].ratedUserId == id) ==> r.Some?
  {
    if rs == [] then s
    else
      var prev := ScoreAfter(s, played, rs[..|rs| - 1], id);
      assert forall k | 0 <= k < |rs| - 1 :: rs[..|rs| - 1][k] == rs[k];
      if rs[|rs| - 1].ratedUserId == id
      then Some(RollingAverage(ScoreOr(prev), played, rs[|rs| - 1].sportsmanship))
      else prev
  }

  /**
   * However many ratings target a profile, the ratings pass gives it the
   * reference fold of those ratings, each weighted by the profile's matches
   * played before this match.
   */
  lemma {:induction false} RatingsScore(m: map<UserId, Profile>, rs: seq<Rating>, id: UserId)
    requires id in m
    ensures id in RatingsApplied(m, rs)
    ensures RatingsApplied(m, rs)[id].sportsmanshipScore
      == ScoreAfter(m[id].sportsmanshipScore, Counter(m[id].totalMatchesPlayed), rs, id)
  {
    if rs != [] {
      var init := rs[..|rs| - 1];
      RatingsScore(m, init, id);
      RatingsPassEffect(m, init, id);
      var p := RatingsApplied(m, init)[id];
      assert Score(p) == ScoreOr(p.sportsmanshipScore);
    }
  }

  // ---- Pass 2 ----

  /**
   * The increment pass raises `totalMatchesPlayed` by the number of times
   * the id occurs among the participants and changes nothing else.
   */
  lemma {:induction false} CountPassEffect(m: map<UserId, Profile>, ids: seq<UserId>, id: UserId)
    requires id in m
    ensures id in MatchesCounted(m, ids)
    ensures Counter(MatchesCounted(m, ids)[id].totalMatchesPlayed)
      == Counter(m[id].totalMatchesPlayed) + Occurrences(ids, id)
    ensures MatchesCounted(m, ids)[id]
      == m[id].(totalMatchesPlayed := MatchesCounted(m, ids)[id].totalMatchesPlayed)
  {
    if ids != [] {
      CountPassEffect(m, ids[..|ids| - 1], id);
    }
  }

  /** An id that occurs once in a duplicate-free participant list is counted once. */
  lemma {:induction false} DistinctIdsCountOnce(ids: seq<UserId>, id: UserId)
    requires forall a, b | 0 <= a < b < |ids| :: ids[a] != ids[b]
    ensures Occurrences(ids, id) == (if id in ids then 1 else 0)
  {
    if ids != [] {
      var init := ids[..|ids| - 1];
      DistinctIdsCountOnce(init, id);
      assert ids == init + [ids[|ids| - 1]];
      assert ids[|ids| - 1] !in init;
    }
  }

  // ---- Pass 3 ----

  /**
   * The result pass, when it applies, gives the winner one more win and the
   * loser one more loss, leaves everyone else's counters and Elo alone,
   * gives the loser the rule's second rating and a distinct winner its
   * first, and changes no other field.
   */
  lemma ResultPassEffect(m: map<UserId, Profile>, mt: Match, elo: EloRule, id: UserId)
    requires id in m
    ensures id in ResultRecorded(m, mt, elo)
    ensures var r := ResultRecorded(m, mt, elo);
      r[id] == m[id].(matchesWon := r[id].matchesWon, matchesLost := r[id].matchesLost, eloRating := r[id].eloRating)
    ensures ResultApplies(m, mt) ==>
      var r := ResultRecorded(m, mt, elo);
      && r[id].matchesWon == (if id == WinnerId(mt) then Some(Counter(m[id].matchesWon) + 1) else m[id].matchesWon)
      && r[id].matchesLost == (if id == LoserId(mt) then Some(Counter(m[id].matchesLost) + 1) else m[id].matchesLost)
      && (id != WinnerId(mt) && id != LoserId(mt) ==> r[id].eloRating == m[id].eloRating)
    ensures ResultApplies(m, mt) ==>
      var r := ResultRecorded(m, mt, elo);
      var ratings := elo(Elo(m[WinnerId(mt)]), Elo(m[LoserId(mt)]));
      && r[LoserId(mt)].eloRating == Some(ratings.1)
      && (WinnerId(mt) != LoserId(mt) ==> r[WinnerId(mt)].eloRating == Some(ratings.0))
  {
  }

  // ---- The whole handler ----

  /** Exactly the participants whose profile exists are written. */
  lemma WritesOnlyExistingProfiles(before: Match, after: Match, store: map<UserId, Profile>, elo: EloRule)
    requires FirstConfirmation(before, after)
    ensures StatsUpdate(before, after, store, elo) == Some(Written(after, store, elo))
    ensures Written(after, store, elo).Keys == set id | id in PlayerIds(after) && id in store
  {
  }

  /**
   * Per written profile: matches played rise by the id's occurrences among
   * the participants (however many ratings target it), and no-shows rise by
   * the number of no-show reports.
   */
  lemma PlayedAndNoShows(after: Match, store: map<UserId, Profile>, elo: EloRule, id: UserId)
    requires id in PlayerIds(after) && id in store
    ensures id in Written(after, store, elo)
    ensures Counter(Written(after, store, elo)[id].totalMatchesPlayed)
      == Counter(store[id].totalMatchesPlayed) + Occurrences(PlayerIds(after), id)
    ensures Counter(Written(after, store, elo)[id].noShows)
      == Counter(store[id].noShows) + NoShowRatings(after.playerRatings, id)
  {
    var m0 := Fetched(store, PlayerIds(after));
    var m1 := RatingsApplied(m0, after.playerRatings);
    RatingsPassEffect(m0, after.playerRatings, id);
    CountPassEffect(m1, PlayerIds(after), id);
    ResultPassEffect(MatchesCounted(m1, PlayerIds(after)), after, elo, id);
  }

  /**
   * A participant rated exactly once in the match gets the average of its
   * stored score (missing or 0 read as 5.0) weighted by its matches played
   * before this match, not after the increment.
   */
  lemma SportsmanshipUsesPriorCount(after: Match, store: map<UserId, Profile>, elo: EloRule, id: UserId, k: nat)
    requires id in PlayerIds(after) && id in store
    requires k < |after.playerRatings| && after.playerRatings[k].ratedUserId == id
    requires forall j | 0 <= j < |after.playerRatings| && j != k :: after.playerRatings[j].ratedUserId != id
    ensures id in Written(after, store, elo)
    ensures Written(after, store, elo)[id].sportsmanshipScore
      == Some(RollingAverage(Score(store[id]), Counter(store[id].totalMatchesPlayed), after.playerRatings[k].sportsmanship))
  {
    var m0 := Fetched(store, PlayerIds(after));
    var m1 := RatingsApplied(m0, after.playerRatings);
    SingleRatingAverage(m0, after.playerRatings, id, k);
    CountPassEffect(m1, PlayerIds(after), id);
    ResultPassEffect(MatchesCounted(m1, PlayerIds(after)), after, elo, id);
  }

  /**
   * Every written profile's sportsmanship score is the reference fold of all
   * ratings of it in this match, each weighted by its matches played before
   * this match, not after the increment.
   */
  lemma EveryRatingUsesPriorCount(after: Match, store: map<UserId, Profile>, elo: EloRule, id: UserId)
    requires id in PlayerIds(after) && id in store
    ensures id in Written(after, store, elo)
    ensures Written(after, store, elo)[id].sportsmanshipScore
      == ScoreAfter(store[id].sportsmanshipScore, Counter(store[id].totalMatchesPlayed), after.playerRatings, id)
  {
    var m0 := Fetched(store, PlayerIds(after));
    var m1 := RatingsApplied(m0, after.playerRatings);
    RatingsScore(m0, after.playerRatings, id);
    CountPassEffect(m1, PlayerIds(after), id);
    ResultPassEffect(MatchesCounted(m1, PlayerIds(after)), after, elo, id);
  }

  /** The result pass takes effect on the fetched copies exactly when it would on the store. */
  predicate RecordsResult(after: Match, store: map<UserId, Profile>)
  {
    Decisive1v1(after) && WinnerId(after) in store && LoserId(after) in store
  }

  /**
   * Win/loss counters change only for a decisive 1v1 match whose two
   * profiles exist: the winner gains one win and the loser one loss. In every
   * other case (draw, missing winner, not 1v1, a missing profile) the Elo
   * rating and both counters are written back unchanged.
   */
  lemma WinLossOnlyForDecisive1v1(after: Match, store: map<UserId, Profile>, elo: EloRule, id: UserId)
    requires id in PlayerIds(after) && id in store
    ensures id in Written(after, store, elo)
    ensures Counter(Written(after, store, elo)[id].matchesWon)
      == Counter(store[id].matchesWon) + (if RecordsResult(after, store) && id == WinnerId(after) then 1 else 0)
    ensures Counter(Written(after, store, elo)[id].matchesLost)
      == Counter(store[id].matchesLost) + (if RecordsResult(after, store) && id == LoserId(after) then 1 else 0)
    ensures !RecordsResult(after, store) ==>
      && Written(after, store, elo)[id].matchesWon == store[id].matchesWon
      && Written(after, store, elo)[id].matchesLost == store[id].matchesLost
      && Written(after, store, elo)[id].eloRating == store[id].eloRating
  {
    var ids := PlayerIds(after);
    var m0 := Fetched(store, ids);
    var m1 := RatingsApplied(m0, after.playerRatings);
    var m2 := MatchesCounted(m1, ids);
    RatingsPassEffect(m0, after.playerRatings, id);
    CountPassEffect(m1, ids, id);
    ResultPassEffect(m2, after, elo, id);
    if Decisive1v1(after) {
      assert WinnerId(after) in ids && LoserId(after) in ids;
      assert ResultApplies(m2, after) <==> RecordsResult(after, store);
    }
  }

  /**
   * In a decisive 1v1 match between two existing, different profiles the Elo
   * rule is applied to the stored ratings (missing or 0 read as 1200): the
   * winner gets its first component and the loser its second.
   */
  lemma EloFromStoredRatings(after: Match, store: map<UserId, Profile>, elo: EloRule)
    requires RecordsResult(after, store) && WinnerId(after) != LoserId(after)
    ensures WinnerId(after) in Written(after, store, elo) && LoserId(after) in Written(after, store, elo)
    ensures Written(after, store, elo)[WinnerId(after)].eloRating
      == Some(elo(Elo(store[WinnerId(after)]), Elo(store[LoserId(after)])).0)
    ensures Written(after, store, elo)[LoserId(after)].eloRating
      == Some(elo(Elo(store[WinnerId(after)]), Elo(store[LoserId(after)])).1)
  {
    var ids := PlayerIds(after);
    var w, l := WinnerId(after), LoserId(after);
    assert w in ids && l in ids;
    var m0 := Fetched(store, ids);
    var m1 := RatingsApplied(m0, after.playerRatings);
    var m2 := MatchesCounted(m1, ids);
    RatingsPassEffect(m0, after.playerRatings, w);
    RatingsPassEffect(m0, after.playerRatings, l);
    CountPassEffect(m1, ids, w);
    CountPassEffect(m1, ids, l);
    assert m2[w].eloRating == store[w].eloRating && m2[l].eloRating == store[l].eloRating;
    ResultPassEffect(m2, after, elo, w);
  }

  /**
   * Two confirmed matches in a row for a new profile (score 5.0, no matches):
   * rated 8 in the first gives 8, rated 6 in the second gives 7, because the
   * second average is weighted by the one match counted after the first.
   */
  lemma SportsmanshipTwoMatches(elo: EloRule)
    ensures
      var newcomer := Profile(None, Some(0), None, None, None, Some(5.0));
      var store := map["a" := newcomer];
      var pending := Match("pending", [], [], "", []);
      var first := Match(CONFIRMED, ["a"], ["b"], DRAW, [Rating("a", "geldi", 8.0)]);
      var second := Match(CONFIRMED, ["a"], ["b"], DRAW, [Rating("a", "geldi", 6.0)]);
      var store1 := StatsUpdate(pending, first, store, elo).value;
      var store2 := StatsUpdate(pending, second, store1, elo).value;
      && store1["a"].sportsmanshipScore == Some(8.0)
      && Counter(store1["a"].totalMatchesPlayed) == 1
      && store2["a"].sportsmanshipScore == Some(7.0)
      && Counter(store2["a"].totalMatchesPlayed) == 2
  {
    var newcomer := Profile(None, Some(0), None, None, None, Some(5.0));
    var store := map["a" := newcomer];
    var first := Match(CONFIRMED, ["a"], ["b"], DRAW, [Rating("a", "geldi", 8.0)]);
    var second := Match(CONFIRMED, ["a"], ["b"], DRAW, [Rating("a", "geldi", 6.0)]);
    SportsmanshipUsesPriorCount(first, store, elo, "a", 0);
    PlayedAndNoShows(first, store, elo, "a");
    assert Occurrences(PlayerIds(first), "a") == 1 by {
      assert PlayerIds(first) == ["a", "b"];
      assert PlayerIds(first)[..1] == ["a"];
    }
    assert RollingAverage(5.0, 0, 8.0) == 8.0;
    assert RollingAverage(8.0, 1, 6.0) == 7.0;
    var pending := Match("pending", [], [], "", []);
    var store1 := Written(first, store, elo);
    assert Score(store1["a"]) == 8.0 && Counter(store1["a"].totalMatchesPlayed) == 1;
    assert StatsUpdate(pending, first, store, elo) == Some(store1);
    SportsmanshipUsesPriorCount(second, store1, elo, "a", 0);
    PlayedAndNoShows(second, store1, elo, "a");
    var store2 := Written(second, store1, elo);
    assert StatsUpdate(pending, second, store1, elo) == Some(store2);
  }

  /**
   * Two ratings of one player in the same match are each weighted by the
   * same count of earlier matches: for a new profile the second rating
   * replaces the first (8 then 6 gives 6, not 7).
   */
  lemma TwoRatingsInOneMatch(elo: EloRule)
    ensures
      var newcomer := Profile(None, Some(0), None, None, None, Some(5.0));
      var m := map["a" := newcomer];
      RatingsApplied(m, [Rating("a", "geldi", 8.0), Rating("a", "geldi", 6.0)])["a"].sportsmanshipScore == Some(6.0)
  {
    var newcomer := Profile(None, Some(0), None, None, None, Some(5.0));
    var m := map["a" := newcomer];
    var rs := [Rating("a", "geldi", 8.0), Rating("a", "geldi", 6.0)];
    assert rs[..1] == [rs[0]] && rs[..1][..0] == [];
    assert RatingsApplied(m, rs[..1][..0]) == m;
    var m1 := RatingsApplied(m, rs[..1]);
    assert m1 == RateOne(RatingsApplied(m, rs[..1][..0]), rs[..1][0]);
    assert m1 == RateOne(m, rs[0]);
    assert m1["a"] == newcomer.(sportsmanshipScore := Some(8.0));
    assert RatingsApplied(m, rs) == RateOne(m1, rs[1]);
  }
}
