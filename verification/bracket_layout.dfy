/**
 * The slot layout of `generateBracket`: with R rounds, round r holds
 * 2^(R-r) match slots, and all slots share one flat index space laid out
 * round by round from round 1 (the leaves) to round R (the final). The
 * source links slot k of a round r < R to slot floor(k/2) + 2^(R-1); this
 * module proves that this is the slot of match floor(i/2) of round r+1 when
 * slot k holds match i of round r, so every link goes forward and only the
 * final has none.
 */
module BracketLayout {
  import opened Common
  import opened Tournament

  function Pow2(e: nat): (r: nat)
    ensures r >= 1
  {
    if e == 0 then 1 else 2 * Pow2(e - 1)
  }

  lemma {:induction false} Pow2Monotone(a: nat, b: nat)
    requires a < b
    ensures Pow2(a) < Pow2(b)
  {
    if a + 1 < b {
      Pow2Monotone(a, b - 1);
    }
  }

  /**
   * The number of rounds for n participants, ceil(log2 n): the smallest R
   * with n <= 2^R.
   */
  function TotalRounds(n: nat): (r: nat)
    requires n >= 1
    ensures n <= Pow2(r)
    ensures r > 0 ==> Pow2(r - 1) < n
    decreases n
  {
    if n == 1 then 0 else 1 + TotalRounds((n + 1) / 2)
  }

  /** n is a power of two. */
  ghost predicate PowerOfTwo(n: nat)
  {
    exists e: nat :: Pow2(e) == n
  }

  lemma PowerOfTwoIffExact(n: nat)
    requires n >= 1
    ensures PowerOfTwo(n) <==> n == Pow2(TotalRounds(n))
  {
    var r := TotalRounds(n);
    if PowerOfTwo(n) {
      var e: nat :| Pow2(e) == n;
      if e < r {
        Pow2Monotone(e, r - 1);
      } else if r < e {
        Pow2Monotone(r, e);
      }
    }
  }

  /** Index of the first slot of round r (1-based) among R rounds. */
  function RoundStart(totalRounds: nat, r: nat): nat
    requires 1 <= r <= totalRounds + 1
  {
    if r == 1 then 0 else RoundStart(totalRounds, r - 1) + Pow2(totalRounds - (r - 1))
  }

  lemma {:induction false} RoundStartClosedForm(totalRounds: nat, r: nat)
    requires 1 <= r <= totalRounds + 1
    ensures RoundStart(totalRounds, r) + Pow2(totalRounds + 1 - r) == Pow2(totalRounds)
  {
    if r > 1 {
      RoundStartClosedForm(totalRounds, r - 1);
    }
  }

  /** The slot of match i (0-based) of round r. */
  function SlotIndex(totalRounds: nat, r: nat, i: nat): nat
    requires 1 <= r <= totalRounds
  {
    RoundStart(totalRounds, r) + i
  }

  /** Where the winner of match i of round r plays next: match floor(i/2) of round r+1. */
  function NextSlot(totalRounds: nat, r: nat, i: nat): Option<nat>
    requires 1 <= r <= totalRounds
  {
    if r < totalRounds then Some(SlotIndex(totalRounds, r + 1, i / 2)) else None
  }

  /** A freshly created match: no players, no winner, "pending", "no_result". */
  function Placeholder(r: nat, i: nat, next: Option<nat>): TournamentMatch
  {
    TournamentMatch(r, i + 1, None, None, None, next, Pending, NO_RESULT)
  }

  /** The slots of round r, in order. */
  function RoundBlock(totalRounds: nat, r: nat): (b: seq<TournamentMatch>)
    requires 1 <= r <= totalRounds
    ensures |b| == Pow2(totalRounds - r)
  {
    seq(Pow2(totalRounds - r), i requires 0 <= i => Placeholder(r, i, NextSlot(totalRounds, r, i)))
  }

  /** Rounds 1 to r of the layout, one block after another. */
  function Layout(totalRounds: nat, r: nat): (s: seq<TournamentMatch>)
    requires r <= totalRounds
    ensures |s| == RoundStart(totalRounds, r + 1)
  {
    if r == 0 then [] else Layout(totalRounds, r - 1) + RoundBlock(totalRounds, r)
  }

  /** The whole layout: 2^R - 1 slots. */
  function Slots(totalRounds: nat): (s: seq<TournamentMatch>)
    ensures |s| == Pow2(totalRounds) - 1
  {
    RoundStartClosedForm(totalRounds, totalRounds + 1);
    Layout(totalRounds, totalRounds)
  }

  /**
   * The source's link formula: for slot k holding match i of round r < R,
   * floor(k/2) + 2^(R-1) is the slot of match floor(i/2) of round r+1.
   */
  lemma ParentIndex(totalRounds: nat, r: nat, i: nat)
    requires 1 <= r < totalRounds && i < Pow2(totalRounds - r)
    ensures SlotIndex(totalRounds, r, i) / 2 + Pow2(totalRounds - 1) == SlotIndex(totalRounds, r + 1, i / 2)
  {
    RoundStartClosedForm(totalRounds, r);
    RoundStartClosedForm(totalRounds, r + 1);
    var h := Pow2(totalRounds - r);
    assert Pow2(totalRounds + 1 - r) == 2 * h;
    assert Pow2(totalRounds) == 2 * Pow2(totalRounds - 1);
    var start := RoundStart(totalRounds, r);
    assert start == 2 * (Pow2(totalRounds - 1) - h);
    assert (start + i) / 2 == Pow2(totalRounds - 1) - h + i / 2;
  }

  /**
   * One step of the placeholder loop: the slot appended for match i of
   * round r, whose flat index is k, is the next element of the round's
   * block, and the code's link index floor(k/2) + 2^(R-1) (none in round R)
   * is its parent slot.
   */
  lemma PlaceholderStep(totalRounds: nat, r: nat, i: nat, k: nat, done: seq<TournamentMatch>)
    requires 1 <= r <= totalRounds && i < Pow2(totalRounds - r) && k == RoundStart(totalRounds, r) + i
    ensures (if r < totalRounds then Some(k / 2 + Pow2(totalRounds - 1)) else None) == NextSlot(totalRounds, r, i)
    ensures done + RoundBlock(totalRounds, r)[..i + 1]
      == (done + RoundBlock(totalRounds, r)[..i]) + [Placeholder(r, i, NextSlot(totalRounds, r, i))]
  {
    if r < totalRounds {
      ParentIndex(totalRounds, r, i);
    }
    var b := RoundBlock(totalRounds, r);
    assert b[..i + 1] == b[..i] + [b[i]];
  }

  /**
   * The placeholder loop of `generateBracket`: rounds 1 to R, 2^(R-round)
   * slots each, every slot linked with floor(matchCounter/2) + 2^(R-1)
   * except in the last round.
   */
  method LayOutSlots(totalRounds: nat) returns (slots: seq<TournamentMatch>)
    requires totalRounds >= 1
    ensures slots == Slots(totalRounds)
  {
    var matchesInCurrentRound := Pow2(totalRounds - 1);
    slots := [];
    var matchCounter := 0;
    var round := 1;
    while round <= totalRounds
      invariant 1 <= round <= totalRounds + 1
      invariant matchCounter == |slots|
      invariant slots == Layout(totalRounds, round - 1)
    {
      var matchesInThisRound := Pow2(totalRounds - round);
      ghost var start := slots;
      ghost var block := RoundBlock(totalRounds, round);
      var i := 0;
      while i < matchesInThisRound
        invariant 0 <= i <= matchesInThisRound
        invariant matchCounter == |slots| == RoundStart(totalRounds, round) + i
        invariant slots == start + block[..i]
      {
        var nextMatchIndex := matchCounter / 2 + matchesInCurrentRound;
        var next := if round < totalRounds then Some(nextMatchIndex) else None;
        PlaceholderStep(totalRounds, round, i, matchCounter, start);
        assert next == NextSlot(totalRounds, round, i);
        assert start + block[..i + 1] == slots + [Placeholder(round, i, next)];
        slots := slots + [Placeholder(round, i, next)];
        matchCounter := matchCounter + 1;
        i := i + 1;
      }
      assert block[..i] == block;
      round := round + 1;
    }
  }

  // ---- Where each slot sits ----

  /** Slot SlotIndex(R, r, i) of the first `upTo` rounds holds match i of round r. */
  lemma {:induction false} LayoutAt(totalRounds: nat, upTo: nat, r: nat, i: nat)
    requires 1 <= r <= upTo <= totalRounds && i < Pow2(totalRounds - r)
    ensures SlotIndex(totalRounds, r, i) < |Layout(totalRounds, upTo)|
    ensures Layout(totalRounds, upTo)[SlotIndex(totalRounds, r, i)] == Placeholder(r, i, NextSlot(totalRounds, r, i))
  {
    var prefix := Layout(totalRounds, upTo - 1);
    assert Layout(totalRounds, upTo) == prefix + RoundBlock(totalRounds, upTo);
    if r < upTo {
      LayoutAt(totalRounds, upTo - 1, r, i);
    } else {
      assert SlotIndex(totalRounds, r, i) == |prefix| + i;
    }
  }

  /** Every slot of the first `upTo` rounds is match i of some round r. */
  lemma {:induction false} Locate(totalRounds: nat, upTo: nat, k: nat) returns (r: nat, i: nat)
    requires upTo <= totalRounds && k < |Layout(totalRounds, upTo)|
    ensures 1 <= r <= upTo && i < Pow2(totalRounds - r) && SlotIndex(totalRounds, r, i) == k
  {
    if k < RoundStart(totalRounds, upTo) {
      r, i := Locate(totalRounds, upTo - 1, k);
    } else {
      r, i := upTo, k - RoundStart(totalRounds, upTo);
    }
  }

  /**
   * The links of the layout: a slot has a next slot exactly when it is not
   * in the last round; the next slot lies strictly later (so following
   * links never cycles), in the following round, and holds match
   * floor(i/2) there; the code's index floor(k/2) + 2^(R-1) names it; and
   * the single slot without a next slot is the last one, the final.
   */
  lemma LinksGoForward(totalRounds: nat, k: nat)
    requires totalRounds >= 1 && k < |Slots(totalRounds)|
    ensures var s := Slots(totalRounds); var m := s[k];
      && 1 <= m.round <= totalRounds
      && (m.nextMatch.Some? <==> m.round < totalRounds)
      && (m.nextMatch.None? <==> k == |s| - 1)
      && (m.nextMatch.Some? ==>
           && k < m.nextMatch.value < |s|
           && m.nextMatch.value == k / 2 + Pow2(totalRounds - 1)
           && s[m.nextMatch.value].round == m.round + 1
           && s[m.nextMatch.value].matchNumberInRound == (m.matchNumberInRound - 1) / 2 + 1)
  {
    var s := Slots(totalRounds);
    var r, i := Locate(totalRounds, totalRounds, k);
    LayoutAt(totalRounds, totalRounds, r, i);
    RoundStartClosedForm(totalRounds, r);
    RoundStartClosedForm(totalRounds, totalRounds);
    if r < totalRounds {
      ParentSlot(totalRounds, r, i);
      assert s[k].nextMatch == Some(SlotIndex(totalRounds, r + 1, i / 2));
    }
  }

  /** The parent of match i of round r < R: a later slot, at the code's index, holding match floor(i/2) of round r+1. */
  lemma ParentSlot(totalRounds: nat, r: nat, i: nat)
    requires 1 <= r < totalRounds && i < Pow2(totalRounds - r)
    ensures var k := SlotIndex(totalRounds, r, i); var next := SlotIndex(totalRounds, r + 1, i / 2);
      && k < next < |Slots(totalRounds)|
      && next == k / 2 + Pow2(totalRounds - 1)
      && Slots(totalRounds)[next] == Placeholder(r + 1, i / 2, NextSlot(totalRounds, r + 1, i / 2))
  {
    ParentIndex(totalRounds, r, i);
    RoundStartClosedForm(totalRounds, r);
    RoundStartClosedForm(totalRounds, r + 1);
    RoundStartClosedForm(totalRounds, totalRounds);
    Pow2Monotone(totalRounds - r - 1, totalRounds - r);
    Pow2Monotone(0, totalRounds - r);
    assert i / 2 < Pow2(totalRounds - (r + 1));
    LayoutAt(totalRounds, totalRounds, r + 1, i / 2);
  }

  /** The first 2^(R-1) slots are exactly round 1. */
  lemma RoundOneSlots(totalRounds: nat, k: nat)
    requires totalRounds >= 1 && k < |Slots(totalRounds)|
    ensures Slots(totalRounds)[k].round == 1 <==> k < Pow2(totalRounds - 1)
  {
    var r, i := Locate(totalRounds, totalRounds, k);
    LayoutAt(totalRounds, totalRounds, r, i);
    RoundStartClosedForm(totalRounds, r);
    if r > 1 {
      Pow2Monotone(totalRounds + 1 - r, totalRounds);
    }
  }
}
