/**
 * The admin's master-bracket editor (src/components/admin/MasterBracketEditor.tsx):
 * entering an official result, the per-round pick counts on the round tabs,
 * and the region filter that chooses which matchups of a round are listed.
 */
module MasterBracketEditor {
  import opened Wrappers
  import opened Constants
  import opened MatchupKeys
  import opened BracketUtils

  // ---------------------------------------------------------------------------
  // handlePick
  // ---------------------------------------------------------------------------

  /**
   * The master picks after `handlePick(round, matchupIndex, winnerId)`:
   * unchanged when that winner is already recorded; otherwise the cascade for
   * the previous winner, then the key set to just the winner id.
   */
  function MasterPick(picks: Picks, round: nat, matchupIndex: nat, winnerId: string): Picks
  {
    var previousWinnerId := PreviousWinner(picks, round, matchupIndex);
    if previousWinnerId == Some(winnerId) then picks
    else Cascaded(picks, round, matchupIndex, previousWinnerId)[Key(round, matchupIndex) := Pick(winnerId, None)]
  }

  /** `picks[key]?.winnerId ?? null`. */
  function PreviousWinner(picks: Picks, round: nat, matchupIndex: nat): (r: Option<string>)
    ensures r.Some? <==> Key(round, matchupIndex) in picks
    ensures r.Some? ==> r.value == picks[Key(round, matchupIndex)].winnerId
  {
    if Key(round, matchupIndex) in picks then Some(picks[Key(round, matchupIndex)].winnerId) else None
  }

  /** Re-picking the current winner changes nothing. */
  lemma MasterRepickIsNoop(picks: Picks, round: nat, matchupIndex: nat)
    requires Key(round, matchupIndex) in picks
    ensures MasterPick(picks, round, matchupIndex, picks[Key(round, matchupIndex)].winnerId) == picks
  {
  }

  /**
   * After a pick the key holds exactly the winner id with no commentary;
   * every other entry is unchanged except the picks on the ancestor chain
   * that held the previous winner, which are removed.
   */
  lemma MasterPickEffect(picks: Picks, round: nat, matchupIndex: nat, winnerId: string, k: Key)
    ensures Key(round, matchupIndex) in MasterPick(picks, round, matchupIndex, winnerId)
    ensures MasterPick(picks, round, matchupIndex, winnerId)[Key(round, matchupIndex)].winnerId == winnerId
    ensures PreviousWinner(picks, round, matchupIndex) != Some(winnerId) ==>
              MasterPick(picks, round, matchupIndex, winnerId)[Key(round, matchupIndex)] == Pick(winnerId, None)
    ensures k != Key(round, matchupIndex) ==>
              (k in MasterPick(picks, round, matchupIndex, winnerId) <==>
                 k in picks
                 && !(Key(round, matchupIndex) in picks && picks[Key(round, matchupIndex)].winnerId != winnerId
                      && picks[Key(round, matchupIndex)].winnerId != ""
                      && OnChain(k, round, matchupIndex)
                      && picks[k].winnerId == picks[Key(round, matchupIndex)].winnerId))
    ensures k != Key(round, matchupIndex) && k in MasterPick(picks, round, matchupIndex, winnerId) ==>
              MasterPick(picks, round, matchupIndex, winnerId)[k] == picks[k]
  {
  }

  // ---------------------------------------------------------------------------
  // Round tabs
  // ---------------------------------------------------------------------------

  /** The count on a round tab: how many of the round's keys hold a pick. */
  function RoundPickCount(picks: Picks, round: nat): (c: nat)
    requires 1 <= round <= 6
    ensures c == |picks.Keys * Block(round, 0, MatchupsInRound(round))|
    ensures c <= MatchupsInRound(round)
  {
    CountPresent(picks, round, 0, MatchupsInRound(round))
  }

  /**
   * When every key is valid, the six round tabs add up to the "Picks Made"
   * total (the number of keys).
   */
  lemma RoundTabsAddUp(picks: Picks)
    requires AllKeysValid(picks)
    ensures RoundPickCount(picks, 1) + RoundPickCount(picks, 2) + RoundPickCount(picks, 3)
          + RoundPickCount(picks, 4) + RoundPickCount(picks, 5) + RoundPickCount(picks, 6) == |picks|
  {
    RoundSizes();
    var p := picks.Keys;
    var b1, b2, b3 := Block(1, 0, 32), Block(2, 0, 16), Block(3, 0, 8);
    var b4, b5, b6 := Block(4, 0, 4), Block(5, 0, 2), Block(6, 0, 1);
    forall k | k in p ensures k in b1 + b2 + b3 + b4 + b5 + b6 {
      assert IsValidKey(k);
    }
    assert p * (b1 + b2 + b3 + b4 + b5 + b6) == p;
    BlocksOfDifferentRounds(1, 0, 32, 2, 0, 16);
    CountOverDisjointUnion(p, b1, b2);
    BlocksOfDifferentRounds(1, 0, 32, 3, 0, 8);
    BlocksOfDifferentRounds(2, 0, 16, 3, 0, 8);
    CountOverDisjointUnion(p, b1 + b2, b3);
    BlocksOfDifferentRounds(1, 0, 32, 4, 0, 4);
    BlocksOfDifferentRounds(2, 0, 16, 4, 0, 4);
    BlocksOfDifferentRounds(3, 0, 8, 4, 0, 4);
    CountOverDisjointUnion(p, b1 + b2 + b3, b4);
    BlocksOfDifferentRounds(1, 0, 32, 5, 0, 2);
    BlocksOfDifferentRounds(2, 0, 16, 5, 0, 2);
    BlocksOfDifferentRounds(3, 0, 8, 5, 0, 2);
    BlocksOfDifferentRounds(4, 0, 4, 5, 0, 2);
    CountOverDisjointUnion(p, b1 + b2 + b3 + b4, b5);
    BlocksOfDifferentRounds(1, 0, 32, 6, 0, 1);
    BlocksOfDifferentRounds(2, 0, 16, 6, 0, 1);
    BlocksOfDifferentRounds(3, 0, 8, 6, 0, 1);
    BlocksOfDifferentRounds(4, 0, 4, 6, 0, 1);
    BlocksOfDifferentRounds(5, 0, 2, 6, 0, 1);
    CountOverDisjointUnion(p, b1 + b2 + b3 + b4 + b5, b6);
  }

  // ---------------------------------------------------------------------------
  // Region filter
  // ---------------------------------------------------------------------------

  /** The region tab: every region, or one of them. */
  datatype RegionFilter = AllRegions | OnlyRegion(region: Region)

  /** Whether the filter lists matchup idx of the active round. */
  predicate Shows(activeRound: nat, filter: RegionFilter, idx: nat)
  {
    filter.AllRegions? || activeRound >= 5 || RegionOf(activeRound, idx) == Some(filter.region)
  }

  /** The indices 0 .. n - 1 that the filter lists, in increasing order. */
  function FilteredIndices(activeRound: nat, filter: RegionFilter, n: nat): seq<nat>
  {
    if n == 0 then []
    else FilteredIndices(activeRound, filter, n - 1) + if Shows(activeRound, filter, n - 1) then [n - 1] else []
  }

  /** The filter keeps exactly the shown indices below n. */
  lemma {:induction false} FilteredMembers(activeRound: nat, filter: RegionFilter, n: nat)
    ensures forall i: nat :: i in FilteredIndices(activeRound, filter, n) <==> i < n && Shows(activeRound, filter, i)
  {
    if n > 0 {
      FilteredMembers(activeRound, filter, n - 1);
    }
  }

  predicate Increasing(s: seq<nat>)
  {
    forall i, j :: 0 <= i < j < |s| ==> s[i] < s[j]
  }

  lemma AppendIncreasing(s: seq<nat>, x: nat)
    requires Increasing(s) && forall j :: 0 <= j < |s| ==> s[j] < x
    ensures Increasing(s + [x])
  {
  }

  /** The kept indices are in strictly increasing order, so each appears once. */
  lemma {:induction false} FilteredSorted(activeRound: nat, filter: RegionFilter, n: nat)
    ensures Increasing(FilteredIndices(activeRound, filter, n))
  {
    if n > 0 {
      FilteredSorted(activeRound, filter, n - 1);
      var prefix := FilteredIndices(activeRound, filter, n - 1);
      if Shows(activeRound, filter, n - 1) {
        FilteredBelow(activeRound, filter, n - 1);
        AppendIncreasing(prefix, n - 1);
      }
    }
  }

  /** Every kept index is below n. */
  lemma {:induction false} FilteredBelow(activeRound: nat, filter: RegionFilter, n: nat)
    ensures forall j :: 0 <= j < |FilteredIndices(activeRound, filter, n)| ==> FilteredIndices(activeRound, filter, n)[j] < n
  {
    if n > 0 {
      FilteredBelow(activeRound, filter, n - 1);
    }
  }

  /** `matchupIndices`: the listed matchups of the active round. */
  function MatchupIndices(activeRound: nat, filter: RegionFilter): seq<nat>
    requires 1 <= activeRound <= 6
  {
    FilteredIndices(activeRound, filter, MatchupsInRound(activeRound))
  }

  /** The integers lo .. hi - 1 in increasing order. */
  function Range(lo: nat, hi: nat): (r: seq<nat>)
    ensures |r| == if hi <= lo then 0 else hi - lo
  {
    if hi <= lo then [] else Range(lo, hi - 1) + [hi - 1]
  }

  /** Below n, the filter shows exactly lo .. hi - 1. */
  predicate ShowsExactly(activeRound: nat, filter: RegionFilter, n: nat, lo: nat, hi: nat)
  {
    forall i: nat :: i < n ==> (Shows(activeRound, filter, i) <==> lo <= i < hi)
  }

  /** A filter that lists exactly lo .. hi - 1 below n yields that range, cut at n. */
  lemma {:induction false} FilteredRange(activeRound: nat, filter: RegionFilter, n: nat, lo: nat, hi: nat)
    requires ShowsExactly(activeRound, filter, n, lo, hi)
    ensures FilteredIndices(activeRound, filter, n) == Range(lo, if n < hi then n else hi)
  {
    if n > 0 {
      FilteredRange(activeRound, filter, n - 1, lo, hi);
      if Shows(activeRound, filter, n - 1) {
        assert lo <= n - 1 < hi;
      } else if n - 1 < lo {
        assert Range(lo, if n < hi then n else hi) == [];
      }
    }
  }

  /** When the shown range ends within n, the filter yields exactly that range. */
  lemma FilteredRangeWithin(activeRound: nat, filter: RegionFilter, n: nat, lo: nat, hi: nat)
    requires ShowsExactly(activeRound, filter, n, lo, hi) && hi <= n
    ensures FilteredIndices(activeRound, filter, n) == Range(lo, hi)
  {
    FilteredRange(activeRound, filter, n, lo, hi);
  }

  /** With every region, or in rounds 5 and 6, all matchups of the round are listed. */
  lemma AllRegionsListsEverything(activeRound: nat, filter: RegionFilter)
    requires 1 <= activeRound <= 6
    requires filter.AllRegions? || activeRound >= 5
    ensures MatchupIndices(activeRound, filter) == Range(0, MatchupsInRound(activeRound))
  {
    FilteredRange(activeRound, filter, MatchupsInRound(activeRound), 0, MatchupsInRound(activeRound));
  }

  /** In rounds 1..4 one region's tab lists exactly the matchups whose region it is. */
  lemma OneRegionListsItsRegion(activeRound: nat, region: Region)
    requires 1 <= activeRound <= 4
    ensures forall i: nat :: i in MatchupIndices(activeRound, OnlyRegion(region)) <==>
              i < MatchupsInRound(activeRound) && RegionOf(activeRound, i) == Some(region)
  {
    FilteredMembers(activeRound, OnlyRegion(region), MatchupsInRound(activeRound));
  }

  /**
   * Those matchups are a contiguous quarter of the round, in increasing
   * order: matchupsInRound(r) / 4 of them.
   */
  lemma OneRegionListsItsQuarter(activeRound: nat, region: Region)
    requires 1 <= activeRound <= 4
    ensures var lo := QuarterStart(activeRound, region);
            MatchupIndices(activeRound, OnlyRegion(region)) == Range(lo, lo + MatchupsInRound(activeRound) / 4)
    ensures |MatchupIndices(activeRound, OnlyRegion(region))| == MatchupsInRound(activeRound) / 4
  {
    var n := MatchupsInRound(activeRound);
    var lo := QuarterStart(activeRound, region);
    var hi := lo + n / 4;
    QuarterShown(activeRound, region);
    FilteredRangeWithin(activeRound, OnlyRegion(region), n, lo, hi);
  }

  /** Below the round size, the region's tab shows exactly its quarter, which fits in the round. */
  lemma QuarterShown(activeRound: nat, region: Region)
    requires 1 <= activeRound <= 4
    ensures var n := MatchupsInRound(activeRound);
            var lo := QuarterStart(activeRound, region);
            lo + n / 4 <= n && ShowsExactly(activeRound, OnlyRegion(region), n, lo, lo + n / 4)
  {
    var n := MatchupsInRound(activeRound);
    QuarterSize(activeRound);
    var m := n / 4;
    var ri := RegionIndex(region);
    var lo: nat := QuarterStart(activeRound, region);
    assert lo + m <= n by {
      RegionsDistinct();
      assert ri <= 3;
      MulMono(ri, 3, m);
    }
    forall i: nat | i < n ensures Shows(activeRound, OnlyRegion(region), i) <==> lo <= i < lo + m {
      InRegionQuarter(activeRound, region, i);
    }
  }

  /** The first matchup of a region's quarter of a round: RegionIndex * matchupsInRound / 4. */
  function QuarterStart(round: nat, region: Region): nat
    requires 1 <= round <= 4
  {
    RegionIndex(region) * (MatchupsInRound(round) / 4)
  }

  lemma MulMono(a: nat, b: nat, m: nat)
    requires a <= b
    ensures a * m <= b * m
  {
  }

  lemma QuarterSize(round: nat)
    requires 1 <= round <= 4
    ensures MatchupsInRound(round) == 4 * Pow2(4 - round)
    ensures MatchupsInRound(round) / 4 == Pow2(4 - round)
  {
    RoundSizes();
    assert Pow2(0) == 1 && Pow2(1) == 2 && Pow2(2) == 4 && Pow2(3) == 8;
  }

  /** Matchup i of round 1..4 is in region number q exactly when it lies in the q-th quarter. */
  lemma InRegionQuarter(round: nat, region: Region, i: nat)
    requires 1 <= round <= 4 && i < MatchupsInRound(round)
    ensures var m := Pow2(4 - round);
            RegionOf(round, i) == Some(region) <==> QuarterStart(round, region) <= i < QuarterStart(round, region) + m
  {
    QuarterSize(round);
    RegionOfValidKey(Key(round, i));
    RegionsDistinct();
    QuarterBlock(i, Pow2(4 - round), RegionIndex(region));
  }

  lemma QuarterBlock(i: nat, m: nat, q: nat)
    requires m > 0
    ensures i / m == q <==> q * m <= i < q * m + m
  {
    if q * m <= i < q * m + m {
      DivUnique(i, m, q, i - q * m);
    }
  }

  // ---------------------------------------------------------------------------
  // The component state
  // ---------------------------------------------------------------------------

  /** The editor's `picks` state, seeded from the saved master bracket if there is one. */
  class MasterBracketEditorState {
    var picks: Picks

    constructor(existingPicks: Option<Picks>)
      ensures picks == if existingPicks.Some? then existingPicks.value else map[]
    {
      picks := if existingPicks.Some? then existingPicks.value else map[];
    }

    /**
     * The "Picks Made" count. The editor only writes valid keys, and then the
     * count is at most 63 and reaches 63 exactly when every matchup is picked.
     */
    function PickCount(): (c: nat)
      reads this
      ensures c == CountPicks(picks)
      ensures AllKeysValid(picks) ==> c <= TOTAL_PICKS
      ensures AllKeysValid(picks) ==> (c == TOTAL_PICKS <==> forall k :: IsValidKey(k) ==> k in picks)
    {
      ValidPicksBounded(picks);
      |picks|
    }

    /** `handlePick`: skip a repeated pick, cascade, then write `{winnerId}`. */
    method HandlePick(round: nat, matchupIndex: nat, winnerId: string)
      modifies this
      ensures picks == MasterPick(old(picks), round, matchupIndex, winnerId)
    {
      var key := Key(round, matchupIndex);
      var previousWinnerId := if key in picks then Some(picks[key].winnerId) else None;
      if previousWinnerId == Some(winnerId) {
        return;
      }
      var updatedPicks, _ := CascadePicks(picks, round, matchupIndex, previousWinnerId);
      updatedPicks := updatedPicks[key := Pick(winnerId, None)];
      picks := updatedPicks;
    }
  }
}
