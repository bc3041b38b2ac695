/**
 * The implicit 64-leaf, 6-round single-elimination tree: coordinate
 * arithmetic, region lookup, who plays whom given a sparse pick map, the
 * cascade that clears stale downstream picks, and pick counting.
 */
module BracketUtils {
  import opened Wrappers
  import opened Constants
  import opened MatchupKeys

  /** An entrant, reduced to the attributes the bracket logic reads. */
  datatype Artist = Artist(id: string, name: string, seed: int, region: Region)

  /** The decision for one matchup: the winner's id and optional commentary. */
  datatype Pick = Pick(winnerId: string, commentary: Option<string>)

  /** A sparse pick set: an absent key means "undecided". */
  type Picks = map<Key, Pick>

  /** Which side of the next-round matchup a winner enters. */
  datatype Position = A | B

  /** A round-1 matchup of one region with its two seeded entrants. */
  datatype SeededMatchup = SeededMatchup(key: Key, artistA: Option<Artist>, artistB: Option<Artist>)

  // ---------------------------------------------------------------------------
  // Round sizes and coordinates
  // ---------------------------------------------------------------------------

  /** `matchupsInRound`: 2^(6-round) matchups, agreeing with the games table. */
  function MatchupsInRound(round: nat): (n: nat)
    requires 1 <= round <= 6
    ensures round in GAMES_PER_ROUND && n == GAMES_PER_ROUND[round]
  {
    GamesPerRoundIsPowerOfTwo(round);
    Pow2(6 - round)
  }

  /** A coordinate that names one of the 63 matchups. */
  predicate IsValidKey(k: Key)
  {
    1 <= k.round <= 6 && k.idx < MatchupsInRound(k.round)
  }

  /** Rounds have 32, 16, 8, 4, 2 and 1 matchups, 63 in all. */
  lemma RoundSizes()
    ensures MatchupsInRound(1) == 32 && MatchupsInRound(2) == 16 && MatchupsInRound(3) == 8
    ensures MatchupsInRound(4) == 4 && MatchupsInRound(5) == 2 && MatchupsInRound(6) == 1
    ensures MatchupsInRound(1) + MatchupsInRound(2) + MatchupsInRound(3) + MatchupsInRound(4)
          + MatchupsInRound(5) + MatchupsInRound(6) == TOTAL_PICKS
  {
  }

  // ---------------------------------------------------------------------------
  // Regions
  // ---------------------------------------------------------------------------

  /**
   * `regionForMatchup`: the region of a round-1 index, `REGIONS[floor(i / 8)]`;
   * indices past the last block have no region (JavaScript's `undefined`).
   */
  function RegionForMatchup(i: nat): (r: Option<Region>)
  {
    if i / 8 < |REGIONS| then Some(REGIONS[i / 8]) else None
  }

  /** Round-1 indices 0..31 fall into four contiguous blocks of 8, in REGIONS order. */
  lemma RegionBlocks(i: nat, j: nat)
    ensures RegionForMatchup(i).Some? <==> i < 32
    ensures i < 32 ==> RegionForMatchup(i) == Some(REGIONS[i / 8])
    ensures i < 32 && j < 32 ==> (RegionForMatchup(i) == RegionForMatchup(j) <==> i / 8 == j / 8)
  {
    RegionsDistinct();
  }

  /** The round-1 index at the left edge of a later matchup's subtree. */
  function FirstRoundIndex(round: nat, idx: nat): nat
  {
    if round <= 1 then idx else idx * Pow2(round - 1)
  }

  /**
   * The region of any matchup: none for the cross-region rounds 5 and 6,
   * otherwise the region of the round-1 index reached by doubling.
   */
  function RegionOf(round: nat, idx: nat): Option<Region>
  {
    if round >= 5 then None else RegionForMatchup(FirstRoundIndex(round, idx))
  }

  /** `getRegionForMatchup`: doubles the index once per round back to round 1. */
  method GetRegionForMatchup(round: nat, matchupIndex: nat) returns (region: Option<Region>)
    ensures region == RegionOf(round, matchupIndex)
  {
    if round >= 5 {
      return None;
    }
    var idx: nat := matchupIndex;
    var r: nat := round;
    while r > 1
      invariant r <= round && (round >= 1 ==> r >= 1)
      invariant r >= 1 ==> idx == matchupIndex * Pow2(round - r)
      invariant r == 0 ==> idx == matchupIndex
    {
      assert Pow2(round - r + 1) == 2 * Pow2(round - r);
      assert idx * 2 == matchupIndex * (2 * Pow2(round - r));
      idx := idx * 2;
      r := r - 1;
    }
    assert round == 1 ==> Pow2(round - r) == 1 && idx == matchupIndex * 1;
    region := RegionForMatchup(idx);
  }

  /**
   * In rounds 1..4 a valid matchup with index i lies in region
   * i / 2^(4-round): round-2 indices 4k..4k+3, round-3 indices 2k, 2k+1 and
   * round-4 index k all lie in region k; rounds 5 and 6 have none.
   */
  lemma RegionOfValidKey(k: Key)
    requires IsValidKey(k)
    ensures RegionOf(k.round, k.idx).None? <==> k.round >= 5
    ensures k.round <= 4 ==> k.idx / Pow2(4 - k.round) < 4
    ensures k.round <= 4 ==> RegionOf(k.round, k.idx) == Some(REGIONS[k.idx / Pow2(4 - k.round)])
  {
    if k.round <= 4 {
      assert Pow2(1) == 2 && Pow2(2) == 4 && Pow2(3) == 8;
      var i := k.idx;
      if k.round == 2 {
        assert FirstRoundIndex(2, i) / 8 == i / 4;
      } else if k.round == 3 {
        assert FirstRoundIndex(3, i) / 8 == i / 2;
      } else if k.round == 4 {
        assert FirstRoundIndex(4, i) / 8 == i;
      }
    }
  }

  /** For rounds 2..4 a matchup is in the same region as both of its parents. */
  lemma RegionOfParents(round: nat, idx: nat)
    requires 2 <= round <= 4
    ensures RegionOf(round, idx) == RegionOf(round - 1, 2 * idx) == RegionOf(round - 1, 2 * idx + 1)
  {
    if round == 2 {
      ParentsIndicesRound2(idx);
    } else if round == 3 {
      ParentsIndicesRound3(idx);
    } else {
      ParentsIndicesRound4(idx);
    }
  }

  /** Round-1 indices of the parents of matchup idx of round 2. */
  lemma ParentsIndicesRound2(idx: nat)
    ensures FirstRoundIndex(2, idx) == FirstRoundIndex(1, 2 * idx) == 2 * idx
    ensures FirstRoundIndex(1, 2 * idx + 1) == 2 * idx + 1
  {
    assert Pow2(1) == 2;
  }

  /** Round-2 matchups 2*idx and 2*idx+1 start at round-1 indices 4*idx and 4*idx+2. */
  lemma ParentsIndicesRound3(idx: nat)
    ensures FirstRoundIndex(3, idx) == FirstRoundIndex(2, 2 * idx) == 4 * idx
    ensures FirstRoundIndex(2, 2 * idx + 1) == 4 * idx + 2
  {
    assert Pow2(1) == 2;
    assert Pow2(2) == 4;
  }

  /** Round-3 matchups 2*idx and 2*idx+1 start at round-1 indices 8*idx and 8*idx+4. */
  lemma ParentsIndicesRound4(idx: nat)
    ensures FirstRoundIndex(4, idx) == FirstRoundIndex(3, 2 * idx) == 8 * idx
    ensures FirstRoundIndex(3, 2 * idx + 1) == 8 * idx + 4
  {
    assert Pow2(2) == 4;
    assert Pow2(3) == 8;
  }

  // ---------------------------------------------------------------------------
  // Looking up entrants
  // ---------------------------------------------------------------------------

  /** `artists.findIndex(p)`: the first position whose artist satisfies p. */
  function FindIndex(artists: seq<Artist>, p: Artist -> bool): (r: Option<nat>)
    ensures r.Some? ==> r.value < |artists| && p(artists[r.value])
    ensures r.Some? ==> forall j :: 0 <= j < r.value ==> !p(artists[j])
    ensures r.None? <==> forall j :: 0 <= j < |artists| ==> !p(artists[j])
  {
    if |artists| == 0 then None
    else if p(artists[0]) then Some(0)
    else match FindIndex(artists[1..], p)
      case None => None
      case Some(j) => Some(j + 1)
  }

  /** `artists.find(p) ?? null`: the first artist satisfying p, if any. */
  function Find(artists: seq<Artist>, p: Artist -> bool): (r: Option<Artist>)
    ensures r.Some? ==> r.value in artists && p(r.value)
    ensures r.Some? ==> exists j :: 0 <= j < |artists| && artists[j] == r.value && forall i :: 0 <= i < j ==> !p(artists[i])
    ensures r.None? <==> forall a :: a in artists ==> !p(a)
  {
    match FindIndex(artists, p)
    case None => None
    case Some(j) => Some(artists[j])
  }

  /** Whatever else satisfies p later in the list, find returns the earliest match. */
  lemma FindReturnsEarliest(artists: seq<Artist>, p: Artist -> bool, j: nat)
    requires j < |artists| && p(artists[j])
    requires forall i :: 0 <= i < j ==> !p(artists[i])
    ensures Find(artists, p) == Some(artists[j])
  {
  }

  /** The artist whose id is the winner recorded at key, if the key is picked and the id is known. */
  function PickedArtist(picks: Picks, key: Key, artists: seq<Artist>): (r: Option<Artist>)
    ensures r.Some? ==> key in picks && r.value in artists && r.value.id == picks[key].winnerId
    ensures r.Some? ==> exists j :: 0 <= j < |artists| && artists[j] == r.value
                          && forall i :: 0 <= i < j ==> artists[i].id != picks[key].winnerId
    ensures r.None? <==> key !in picks || forall a :: a in artists ==> a.id != picks[key].winnerId
  {
    if key in picks then Find(artists, (a: Artist) => a.id == picks[key].winnerId) else None
  }

  /** `getRound1Artists`: the first catalog artists with the region and the two seeds of a pairing. */
  function GetRound1Artists(artists: seq<Artist>, region: Region, regionMatchupIndex: nat)
    : (r: (Option<Artist>, Option<Artist>))
    requires regionMatchupIndex < |ROUND_1_SEED_MATCHUPS|
    ensures r.0.Some? ==> r.0.value in artists && r.0.value.region == region
                          && r.0.value.seed == ROUND_1_SEED_MATCHUPS[regionMatchupIndex].0
    ensures r.1.Some? ==> r.1.value in artists && r.1.value.region == region
                          && r.1.value.seed == ROUND_1_SEED_MATCHUPS[regionMatchupIndex].1
    ensures r.0.Some? ==>
              exists j :: 0 <= j < |artists| && artists[j] == r.0.value
                && forall i :: 0 <= i < j ==>
                     !(artists[i].region == region && artists[i].seed == ROUND_1_SEED_MATCHUPS[regionMatchupIndex].0)
    ensures r.1.Some? ==>
              exists j :: 0 <= j < |artists| && artists[j] == r.1.value
                && forall i :: 0 <= i < j ==>
                     !(artists[i].region == region && artists[i].seed == ROUND_1_SEED_MATCHUPS[regionMatchupIndex].1)
    ensures r.0.None? <==> forall a :: a in artists ==>
                            !(a.region == region && a.seed == ROUND_1_SEED_MATCHUPS[regionMatchupIndex].0)
    ensures r.1.None? <==> forall a :: a in artists ==>
                            !(a.region == region && a.seed == ROUND_1_SEED_MATCHUPS[regionMatchupIndex].1)
  {
    var (seedA, seedB) := ROUND_1_SEED_MATCHUPS[regionMatchupIndex];
    (Find(artists, (a: Artist) => a.region == region && a.seed == seedA),
     Find(artists, (a: Artist) => a.region == region && a.seed == seedB))
  }

  /** `getRegionRound1Matchups`: the eight round-1 matchups of one region. */
  function GetRegionRound1Matchups(artists: seq<Artist>, region: Region): (r: seq<SeededMatchup>)
    ensures |r| == 8
    ensures forall i :: 0 <= i < 8 ==>
              r[i].key == Key(1, 8 * RegionIndex(region) + i) && IsValidKey(r[i].key)
              && RegionForMatchup(r[i].key.idx) == Some(region)
              && (r[i].artistA, r[i].artistB) == GetRound1Artists(artists, region, i)
  {
    seq(8, i requires 0 <= i < 8 =>
      var (a, b) := GetRound1Artists(artists, region, i);
      SeededMatchup(Key(1, 8 * RegionIndex(region) + i), a, b))
  }

  // ---------------------------------------------------------------------------
  // Parents and children
  // ---------------------------------------------------------------------------

  /** `getParentMatchupKeys`: the two matchups of the previous round that feed this one. */
  function GetParentMatchupKeys(round: nat, matchupIndex: nat): Option<(Key, Key)>
  {
    if round <= 1 then None
    else Some((Key(round - 1, 2 * matchupIndex), Key(round - 1, 2 * matchupIndex + 1)))
  }

  /** `getChildMatchupKey`: the next-round matchup this one feeds. */
  function GetChildMatchupKey(round: nat, matchupIndex: nat): Option<Key>
  {
    if round >= 6 then None else Some(Key(round + 1, matchupIndex / 2))
  }

  /** `getPositionInChild`: even indices enter the child as A, odd ones as B. */
  function GetPositionInChild(matchupIndex: nat): Position
  {
    if matchupIndex % 2 == 0 then A else B
  }

  /**
   * Parents exist exactly from round 2 on; the child of either parent is
   * the matchup itself, the even parent entering as A and the odd one as B.
   */
  lemma ParentChildDuality(round: nat, idx: nat)
    ensures GetParentMatchupKeys(round, idx).None? <==> round <= 1
    ensures 2 <= round <= 6 ==>
      var (pa, pb) := GetParentMatchupKeys(round, idx).value;
      && GetChildMatchupKey(pa.round, pa.idx) == Some(Key(round, idx))
      && GetChildMatchupKey(pb.round, pb.idx) == Some(Key(round, idx))
      && GetPositionInChild(pa.idx) == A && GetPositionInChild(pb.idx) == B
  {
  }

  /**
   * A child exists exactly up to round 5, and among the child's parents the
   * one at the matchup's position is the matchup itself.
   */
  lemma ChildParentDuality(round: nat, idx: nat)
    ensures GetChildMatchupKey(round, idx).None? <==> round >= 6
    ensures 1 <= round < 6 ==>
      var c := GetChildMatchupKey(round, idx).value;
      var (pa, pb) := GetParentMatchupKeys(c.round, c.idx).value;
      (if GetPositionInChild(idx) == A then pa else pb) == Key(round, idx)
  {
  }

  /** Parents and children of a valid matchup are valid matchups. */
  lemma NeighboursValid(k: Key)
    requires IsValidKey(k)
    ensures k.round >= 2 ==>
              IsValidKey(GetParentMatchupKeys(k.round, k.idx).value.0)
              && IsValidKey(GetParentMatchupKeys(k.round, k.idx).value.1)
    ensures k.round <= 5 ==> IsValidKey(GetChildMatchupKey(k.round, k.idx).value)
  {
    if k.round >= 2 {
      assert Pow2(6 - (k.round - 1)) == 2 * Pow2(6 - k.round);
    }
    if k.round <= 5 {
      assert Pow2(6 - k.round) == 2 * Pow2(6 - (k.round + 1));
    }
  }

  /**
   * `getMatchupArtists`: round 1 reads the seeding table; later rounds take the
   * winners recorded at the two parent matchups.
   */
  function GetMatchupArtists(round: nat, matchupIndex: nat, picks: Picks, artists: seq<Artist>)
    : (r: (Option<Artist>, Option<Artist>))
    ensures round == 1 && matchupIndex < 32 ==>
              r == GetRound1Artists(artists, REGIONS[matchupIndex / 8], matchupIndex % 8)
    ensures round == 0 || (round == 1 && matchupIndex >= 32) ==> r == (None, None)
    ensures round >= 2 ==>
              var pa := Key(round - 1, 2 * matchupIndex);
              && (r.0.None? <==> pa !in picks || forall a :: a in artists ==> a.id != picks[pa].winnerId)
              && (r.0.Some? ==> r.0.value in artists && r.0.value.id == picks[pa].winnerId)
              && (r.0.Some? ==> exists j :: 0 <= j < |artists| && artists[j] == r.0.value
                                  && forall i :: 0 <= i < j ==> artists[i].id != picks[pa].winnerId)
    ensures round >= 2 ==>
              var pb := Key(round - 1, 2 * matchupIndex + 1);
              && (r.1.None? <==> pb !in picks || forall a :: a in artists ==> a.id != picks[pb].winnerId)
              && (r.1.Some? ==> r.1.value in artists && r.1.value.id == picks[pb].winnerId)
              && (r.1.Some? ==> exists j :: 0 <= j < |artists| && artists[j] == r.1.value
                                  && forall i :: 0 <= i < j ==> artists[i].id != picks[pb].winnerId)
  {
    if round == 1 then
      match RegionForMatchup(matchupIndex)
      case None => (None, None)
      case Some(region) => GetRound1Artists(artists, region, matchupIndex % 8)
    else
      match GetParentMatchupKeys(round, matchupIndex)
      case None => (None, None)
      case Some((pa, pb)) => (PickedArtist(picks, pa, artists), PickedArtist(picks, pb, artists))
  }

  /** The region listing and the per-matchup lookup agree on every round-1 matchup. */
  lemma Round1ListingAgrees(artists: seq<Artist>, region: Region, i: nat, picks: Picks)
    requires i < 8
    ensures var m := GetRegionRound1Matchups(artists, region)[i];
            GetMatchupArtists(1, m.key.idx, picks, artists) == (m.artistA, m.artistB)
  {
    var m := GetRegionRound1Matchups(artists, region)[i];
    var idx := 8 * RegionIndex(region) + i;
    assert m.key.idx == idx;
    assert (m.artistA, m.artistB) == GetRound1Artists(artists, region, i);
    assert idx / 8 == RegionIndex(region) && idx % 8 == i;
    assert REGIONS[idx / 8] == region;
  }

  // ---------------------------------------------------------------------------
  // Cascade
  // ---------------------------------------------------------------------------

  /** The index `n` rounds later on the way to the championship: halved `n` times. */
  function ChainIndex(idx: nat, n: nat): nat
  {
    if n == 0 then idx else ChainIndex(idx, n - 1) / 2
  }

  /** k lies on the path from (round, idx) towards the championship, strictly after it. */
  predicate OnChain(k: Key, round: nat, idx: nat)
  {
    round < k.round <= 6 && k.idx == ChainIndex(idx, k.round - round)
  }

  /** Halving `n` times is dividing by 2^n. */
  lemma {:induction false} ChainIndexIsDivision(idx: nat, n: nat)
    ensures ChainIndex(idx, n) == idx / Pow2(n)
  {
    if n > 0 {
      ChainIndexIsDivision(idx, n - 1);
      DivPow2Step(idx, n - 1);
    }
  }

  lemma DivPow2Step(i: nat, n: nat)
    ensures i / Pow2(n) / 2 == i / Pow2(n + 1)
  {
    var p := Pow2(n);
    var q, r := i / p, i % p;
    var q2, r2 := q / 2, q % 2;
    assert i == q2 * (2 * p) + (r2 * p + r) by {
      assert i == q * p + r;
      assert q == 2 * q2 + r2;
      assert q * p == (2 * q2 + r2) * p;
    }
    assert 0 <= r2 * p + r < 2 * p;
    DivUnique(i, 2 * p, q2, r2 * p + r);
  }

  lemma DivUnique(a: nat, b: nat, q: nat, r: nat)
    requires b > 0 && a == q * b + r && r < b
    ensures a / b == q
  {
    var q', r' := a / b, a % b;
    assert a == q' * b + r' && 0 <= r' < b;
    assert q' * b - q * b == (q' - q) * b;
    if q' > q {
      MulAtLeast(q' - q, b);
    } else if q' < q {
      MulAtLeast(q - q', b);
    }
  }

  lemma MulAtLeast(x: int, b: int)
    requires x >= 1 && b >= 0
    ensures x * b >= b
  {
  }

  /**
   * The pick map `cascadePicks` returns, as a value: without a previous
   * winner the input, otherwise the input less every pick on the ancestor
   * chain whose winner is the previous winner. It only ever removes entries.
   */
  function Cascaded(picks: Picks, changedRound: nat, changedMatchupIndex: nat, previousWinnerId: Option<string>)
    : (r: Picks)
    ensures forall k :: k in r ==> k in picks && r[k] == picks[k]
    ensures forall k :: k in picks && !OnChain(k, changedRound, changedMatchupIndex) ==> k in r
    ensures Key(changedRound, changedMatchupIndex) in picks ==> Key(changedRound, changedMatchupIndex) in r
  {
    if previousWinnerId.None? || previousWinnerId.value == "" then picks
    else
      map k | k in picks && !(OnChain(k, changedRound, changedMatchupIndex) && picks[k].winnerId == previousWinnerId.value)
        :: picks[k]
  }

  /**
   * The cascade's bookkeeping after the rounds below `bound`: the cleared keys
   * are exactly the chain's picks of those rounds that hold `previous`, in
   * increasing round order.
   */
  ghost predicate ClearedBelow(picks: Picks, clearedKeys: seq<Key>, changedRound: nat, changedMatchupIndex: nat,
                         previous: string, bound: nat)
  {
    (forall k :: k in clearedKeys <==>
       k in picks && OnChain(k, changedRound, changedMatchupIndex) && k.round < bound && picks[k].winnerId == previous)
    && (forall j :: 0 <= j < |clearedKeys| ==> clearedKeys[j].round < bound)
    && (forall j :: 0 < j < |clearedKeys| ==> clearedKeys[j - 1].round < clearedKeys[j].round)
  }

  /** The working map is the input less the cleared keys, with every value untouched. */
  ghost predicate RemainingPicks(picks: Picks, updatedPicks: Picks, clearedKeys: seq<Key>)
  {
    (forall k :: k in updatedPicks <==> k in picks && k !in clearedKeys)
    && (forall k :: k in updatedPicks ==> updatedPicks[k] == picks[k])
  }

  /** The only chain key of round `round` is the one the loop visits. */
  lemma ChainKeyOfRound(k: Key, changedRound: nat, changedMatchupIndex: nat, round: nat)
    requires OnChain(k, changedRound, changedMatchupIndex) && k.round == round
    ensures k == Key(round, ChainIndex(changedMatchupIndex, round - changedRound))
  {
  }

  /** One iteration of the cascade loop, at round `round`, keeps the bookkeeping. */
  lemma CascadeStep(picks: Picks, changedRound: nat, changedMatchupIndex: nat, previous: string, round: nat,
                    updated0: Picks, cleared0: seq<Key>, updated1: Picks, cleared1: seq<Key>)
    requires changedRound < round <= 6
    requires ClearedBelow(picks, cleared0, changedRound, changedMatchupIndex, previous, round)
    requires RemainingPicks(picks, updated0, cleared0)
    requires var key := Key(round, ChainIndex(changedMatchupIndex, round - changedRound));
             if key in updated0 && updated0[key].winnerId == previous
             then updated1 == updated0 - {key} && cleared1 == cleared0 + [key]
             else updated1 == updated0 && cleared1 == cleared0
    ensures ClearedBelow(picks, cleared1, changedRound, changedMatchupIndex, previous, round + 1)
    ensures RemainingPicks(picks, updated1, cleared1)
  {
    var key := Key(round, ChainIndex(changedMatchupIndex, round - changedRound));
    if key in updated0 && updated0[key].winnerId == previous {
      CascadeStepHit(picks, changedRound, changedMatchupIndex, previous, round, updated0, cleared0, key);
    } else {
      forall k | k in picks && OnChain(k, changedRound, changedMatchupIndex) && k.round == round
        ensures picks[k].winnerId != previous
      {
        ChainKeyOfRound(k, changedRound, changedMatchupIndex, round);
      }
    }
  }

  /** The step that clears the visited key. */
  lemma CascadeStepHit(picks: Picks, changedRound: nat, changedMatchupIndex: nat, previous: string, round: nat,
                       updated0: Picks, cleared0: seq<Key>, key: Key)
    requires changedRound < round <= 6
    requires key == Key(round, ChainIndex(changedMatchupIndex, round - changedRound))
    requires ClearedBelow(picks, cleared0, changedRound, changedMatchupIndex, previous, round)
    requires RemainingPicks(picks, updated0, cleared0)
    requires key in updated0 && updated0[key].winnerId == previous
    ensures ClearedBelow(picks, cleared0 + [key], changedRound, changedMatchupIndex, previous, round + 1)
    ensures RemainingPicks(picks, updated0 - {key}, cleared0 + [key])
  {
    assert key in picks && picks[key].winnerId == previous;
    ClearedHit(picks, changedRound, changedMatchupIndex, previous, round, cleared0, key);
    var cleared1, updated1 := cleared0 + [key], updated0 - {key};
    assert forall k :: k in cleared1 <==> k in cleared0 || k == key;
  }

  lemma ClearedHit(picks: Picks, changedRound: nat, changedMatchupIndex: nat, previous: string, round: nat,
                   cleared0: seq<Key>, key: Key)
    requires changedRound < round <= 6
    requires key == Key(round, ChainIndex(changedMatchupIndex, round - changedRound))
    requires ClearedBelow(picks, cleared0, changedRound, changedMatchupIndex, previous, round)
    requires key in picks && picks[key].winnerId == previous
    ensures ClearedBelow(picks, cleared0 + [key], changedRound, changedMatchupIndex, previous, round + 1)
  {
    var cleared1 := cleared0 + [key];
    forall k
      ensures k in cleared1 <==>
                k in picks && OnChain(k, changedRound, changedMatchupIndex) && k.round < round + 1
                && picks[k].winnerId == previous
    {
      assert k in cleared1 <==> k in cleared0 || k == key;
      if k in picks && OnChain(k, changedRound, changedMatchupIndex) && k.round == round {
        ChainKeyOfRound(k, changedRound, changedMatchupIndex, round);
      }
    }
    forall j | 0 < j < |cleared1|
      ensures cleared1[j - 1].round < cleared1[j].round
    {
      if j == |cleared0| {
        assert cleared1[j - 1] == cleared0[j - 1];
      }
    }
  }

  /** Once every round up to 6 is done, the bookkeeping is the method's promise. */
  lemma CascadeDone(picks: Picks, changedRound: nat, changedMatchupIndex: nat, previous: string, bound: nat,
                    updatedPicks: Picks, clearedKeys: seq<Key>)
    requires bound >= 7 && previous != ""
    requires ClearedBelow(picks, clearedKeys, changedRound, changedMatchupIndex, previous, bound)
    requires RemainingPicks(picks, updatedPicks, clearedKeys)
    ensures forall k :: k in clearedKeys <==>
              k in picks && OnChain(k, changedRound, changedMatchupIndex) && picks[k].winnerId == previous
    ensures updatedPicks.Keys == picks.Keys - (set k | k in clearedKeys)
    ensures forall k :: k in updatedPicks ==> updatedPicks[k] == picks[k]
    ensures forall j :: 0 < j < |clearedKeys| ==> clearedKeys[j - 1].round < clearedKeys[j].round
    ensures updatedPicks == Cascaded(picks, changedRound, changedMatchupIndex, Some(previous))
  {
    assert updatedPicks.Keys == picks.Keys - (set k | k in clearedKeys);
    assert updatedPicks.Keys == Cascaded(picks, changedRound, changedMatchupIndex, Some(previous)).Keys;
  }

  /**
   * `cascadePicks`: without a previous winner (null, or the empty id, which
   * JavaScript treats as false) nothing changes. Otherwise walks every later
   * round up to 6 along the ancestor chain and deletes each pick whose winner
   * is the previous winner, without stopping at the first non-match.
   */
  method CascadePicks(picks: Picks, changedRound: nat, changedMatchupIndex: nat, previousWinnerId: Option<string>)
    returns (updatedPicks: Picks, clearedKeys: seq<Key>)
    ensures previousWinnerId.None? || previousWinnerId == Some("") ==> updatedPicks == picks && clearedKeys == []
    ensures previousWinnerId.Some? && previousWinnerId.value != "" ==>
              forall k :: k in clearedKeys <==>
                k in picks && OnChain(k, changedRound, changedMatchupIndex) && picks[k].winnerId == previousWinnerId.value
    ensures updatedPicks.Keys == picks.Keys - (set k | k in clearedKeys)
    ensures forall k :: k in updatedPicks ==> updatedPicks[k] == picks[k]
    ensures forall j :: 0 < j < |clearedKeys| ==> clearedKeys[j - 1].round < clearedKeys[j].round
    ensures |clearedKeys| <= if changedRound < 6 then 6 - changedRound else 0
    ensures updatedPicks == Cascaded(picks, changedRound, changedMatchupIndex, previousWinnerId)
  {
    if previousWinnerId.None? || previousWinnerId.value == "" {
      return picks, [];
    }
    var previous := previousWinnerId.value;
    updatedPicks, clearedKeys := picks, [];
    var currentRound: nat := changedRound + 1;
    var currentMatchupIndex: nat := changedMatchupIndex / 2;
    while currentRound <= 6
      invariant changedRound < currentRound && (changedRound <= 6 ==> currentRound <= 7)
      invariant changedRound >= 6 ==> currentRound == changedRound + 1
      invariant currentMatchupIndex == ChainIndex(changedMatchupIndex, currentRound - changedRound)
      invariant ClearedBelow(picks, clearedKeys, changedRound, changedMatchupIndex, previous, currentRound)
      invariant RemainingPicks(picks, updatedPicks, clearedKeys)
      invariant |clearedKeys| <= currentRound - changedRound - 1
    {
      var key := Key(currentRound, currentMatchupIndex);
      ghost var updated0, cleared0 := updatedPicks, clearedKeys;
      if key in updatedPicks && updatedPicks[key].winnerId == previous {
        updatedPicks := updatedPicks - {key};
        clearedKeys := clearedKeys + [key];
      }
      CascadeStep(picks, changedRound, changedMatchupIndex, previous, currentRound,
                  updated0, cleared0, updatedPicks, clearedKeys);
      currentRound := currentRound + 1;
      currentMatchupIndex := currentMatchupIndex / 2;
    }
    CascadeDone(picks, changedRound, changedMatchupIndex, previous, currentRound, updatedPicks, clearedKeys);
  }

  // ---------------------------------------------------------------------------
  // Enumerating the 63 matchups
  // ---------------------------------------------------------------------------

  /** Number of matchups in the rounds before `round` (0, 32, 48, 56, 60, 62, 63). */
  function RoundStart(round: nat): nat
    requires 1 <= round <= 7
  {
    if round == 1 then 0 else RoundStart(round - 1) + MatchupsInRound(round - 1)
  }

  lemma RoundStartStep(round: nat)
    requires 1 <= round <= 6
    ensures RoundStart(round) + MatchupsInRound(round) == RoundStart(round + 1)
  {
  }

  /** Position of a matchup in round-then-index order. */
  function Ordinal(k: Key): nat
    requires 1 <= k.round <= 6
  {
    RoundStart(k.round) + k.idx
  }

  /** The matchup at position j of round-then-index order (closed form). */
  function KeyAt(j: nat): Key
    requires j < TOTAL_PICKS
  {
    if j < 32 then Key(1, j)
    else if j < 48 then Key(2, j - 32)
    else if j < 56 then Key(3, j - 48)
    else if j < 60 then Key(4, j - 56)
    else if j < 62 then Key(5, j - 60)
    else Key(6, j - 62)
  }

  lemma RoundStartValues()
    ensures RoundStart(1) == 0 && RoundStart(2) == 32 && RoundStart(3) == 48 && RoundStart(4) == 56
    ensures RoundStart(5) == 60 && RoundStart(6) == 62 && RoundStart(7) == 63
  {
    RoundSizes();
    assert RoundStart(2) == 32;
    assert RoundStart(3) == 48;
    assert RoundStart(4) == 56;
    assert RoundStart(5) == 60;
    assert RoundStart(6) == 62;
  }

  /** The valid keys of one round occupy positions RoundStart(round) .. RoundStart(round + 1) - 1. */
  lemma KeyAtRound(round: nat)
    requires 1 <= round <= 6
    ensures RoundStart(round) + MatchupsInRound(round) <= TOTAL_PICKS
    ensures forall i :: 0 <= i < MatchupsInRound(round) ==> KeyAt(RoundStart(round) + i) == Key(round, i)
  {
    RoundStartValues();
    RoundSizes();
  }

  /**
   * KeyAt and Ordinal are inverse bijections between 0..62 and the valid keys,
   * and position order is round-then-index order.
   */
  lemma OrdinalBijection(a: Key, b: Key, j: nat)
    ensures j < TOTAL_PICKS ==> IsValidKey(KeyAt(j)) && Ordinal(KeyAt(j)) == j
    ensures IsValidKey(a) ==> Ordinal(a) < TOTAL_PICKS && KeyAt(Ordinal(a)) == a
    ensures IsValidKey(a) && IsValidKey(b) ==>
              (Ordinal(a) < Ordinal(b) <==> a.round < b.round || (a.round == b.round && a.idx < b.idx))
  {
    if j < TOTAL_PICKS {
      KeyAtInverse(j);
    }
    if IsValidKey(a) {
      OrdinalInverse(a);
      if IsValidKey(b) {
        OrdinalOrder(a, b);
      }
    }
  }

  /** Position j holds a valid key whose position is j. */
  lemma KeyAtInverse(j: nat)
    requires j < TOTAL_PICKS
    ensures IsValidKey(KeyAt(j)) && Ordinal(KeyAt(j)) == j
  {
    RoundStartValues();
    RoundSizes();
  }

  /** A valid key's position is below 63 and holds that key. */
  lemma OrdinalInverse(a: Key)
    requires IsValidKey(a)
    ensures Ordinal(a) < TOTAL_PICKS && KeyAt(Ordinal(a)) == a
  {
    RoundStartValues();
    RoundSizes();
  }

  /** Positions are ordered by round, then by index. */
  lemma OrdinalOrder(a: Key, b: Key)
    requires IsValidKey(a) && IsValidKey(b)
    ensures Ordinal(a) < Ordinal(b) <==> a.round < b.round || (a.round == b.round && a.idx < b.idx)
  {
    RoundStartValues();
    RoundSizes();
  }

  /** `allKeysForRound`: the matchups of one round in index order. */
  function AllKeysForRound(round: nat): (keys: seq<Key>)
    requires 1 <= round <= 6
    ensures |keys| == GAMES_PER_ROUND[round]
    ensures forall i :: 0 <= i < |keys| ==> IsValidKey(keys[i]) && keys[i] == Key(round, i)
  {
    seq(MatchupsInRound(round), i requires 0 <= i => Key(round, i))
  }

  /**
   * `allMatchupKeys`: every valid matchup exactly once, ordered by round and
   * then by index.
   */
  method AllMatchupKeys() returns (keys: seq<Key>)
    ensures |keys| == TOTAL_PICKS
    ensures forall j :: 0 <= j < |keys| ==> keys[j] == KeyAt(j)
    ensures forall k :: IsValidKey(k) <==> k in keys
    ensures forall i, j :: 0 <= i < j < |keys| ==>
              keys[i].round < keys[j].round || (keys[i].round == keys[j].round && keys[i].idx < keys[j].idx)
  {
    keys := [];
    for round := 1 to 7
      invariant |keys| == RoundStart(round)
      invariant forall j :: 0 <= j < |keys| ==> keys[j] == KeyAt(j)
    {
      AppendRoundKeys(keys, round);
      keys := keys + AllKeysForRound(round);
    }
    RoundStartValues();
    KeyListComplete(keys);
    KeyListOrdered(keys);
  }

  /** Appending one round's keys to the keys of the earlier rounds keeps them in position order. */
  lemma AppendRoundKeys(keys: seq<Key>, round: nat)
    requires 1 <= round <= 6
    requires |keys| == RoundStart(round) && forall j :: 0 <= j < |keys| ==> keys[j] == KeyAt(j)
    ensures |keys + AllKeysForRound(round)| == RoundStart(round + 1)
    ensures forall j :: 0 <= j < |keys + AllKeysForRound(round)| ==> (keys + AllKeysForRound(round))[j] == KeyAt(j)
  {
    KeyAtRound(round);
    RoundStartStep(round);
    var next := keys + AllKeysForRound(round);
    forall j | |keys| <= j < |next| ensures next[j] == KeyAt(j) {
      assert next[j] == Key(round, j - |keys|);
    }
  }

  /** The list of the keys in position order holds exactly the valid keys. */
  lemma KeyListComplete(keys: seq<Key>)
    requires |keys| == TOTAL_PICKS && forall j :: 0 <= j < |keys| ==> keys[j] == KeyAt(j)
    ensures forall k :: IsValidKey(k) <==> k in keys
  {
    forall k | IsValidKey(k) ensures k in keys {
      OrdinalBijection(k, k, 0);
      assert keys[Ordinal(k)] == k;
    }
    forall k | k in keys ensures IsValidKey(k) {
      var j :| 0 <= j < |keys| && keys[j] == k;
      OrdinalBijection(k, k, j);
    }
  }

  /** The list of the keys in position order is ordered by round, then by index. */
  lemma KeyListOrdered(keys: seq<Key>)
    requires |keys| == TOTAL_PICKS && forall j :: 0 <= j < |keys| ==> keys[j] == KeyAt(j)
    ensures forall i, j :: 0 <= i < j < |keys| ==>
              keys[i].round < keys[j].round || (keys[i].round == keys[j].round && keys[i].idx < keys[j].idx)
  {
    forall i, j | 0 <= i < j < |keys|
      ensures keys[i].round < keys[j].round || (keys[i].round == keys[j].round && keys[i].idx < keys[j].idx)
    {
      OrdinalBijection(keys[i], keys[j], i);
      OrdinalBijection(keys[j], keys[i], j);
    }
  }

  // ---------------------------------------------------------------------------
  // Counting picks
  // ---------------------------------------------------------------------------

  /** `countPicks`: the number of keys in the pick map. */
  function CountPicks(picks: Picks): nat
  {
    |picks|
  }

  /** `isBracketComplete`: exactly 63 keys, whatever the keys are. */
  predicate IsBracketComplete(picks: Picks)
  {
    CountPicks(picks) == TOTAL_PICKS
  }

  /** Every key of the map names one of the 63 matchups. */
  predicate AllKeysValid(picks: Picks)
  {
    forall k :: k in picks ==> IsValidKey(k)
  }

  /** The set of the 63 valid keys, listed through KeyAt. */
  function ValidKeys(): set<Key>
  {
    set j | 0 <= j < TOTAL_PICKS :: KeyAt(j)
  }

  lemma {:induction false} KeyAtPrefixCard(n: nat)
    requires n <= TOTAL_PICKS
    ensures |set j | 0 <= j < n :: KeyAt(j)| == n
  {
    if n > 0 {
      var before := set j | 0 <= j < n - 1 :: KeyAt(j);
      var upto := set j | 0 <= j < n :: KeyAt(j);
      KeyAtPrefixCard(n - 1);
      assert upto == before + {KeyAt(n - 1)};
      if KeyAt(n - 1) in before {
        var j :| 0 <= j < n - 1 && KeyAt(j) == KeyAt(n - 1);
        OrdinalBijection(KeyAt(j), KeyAt(j), j);
        OrdinalBijection(KeyAt(j), KeyAt(j), n - 1);
      }
    }
  }

  /** ValidKeys holds exactly the valid keys, 63 of them. */
  lemma ValidKeysCard()
    ensures forall k :: k in ValidKeys() <==> IsValidKey(k)
    ensures |ValidKeys()| == TOTAL_PICKS
  {
    KeyAtPrefixCard(TOTAL_PICKS);
    forall k | IsValidKey(k) ensures k in ValidKeys() {
      OrdinalBijection(k, k, 0);
    }
    forall k | k in ValidKeys() ensures IsValidKey(k) {
      var j :| 0 <= j < TOTAL_PICKS && KeyAt(j) == k;
      OrdinalBijection(k, k, j);
    }
  }

  lemma {:induction false} SubsetOfEqualSize<T>(a: set<T>, b: set<T>)
    requires a <= b && |a| == |b|
    ensures a == b
  {
    if x :| x in b && x !in a {
      assert a <= b - {x};
      SubsetCard(a, b - {x});
    }
  }

  lemma {:induction false} SubsetCard<T>(a: set<T>, b: set<T>)
    requires a <= b
    ensures |a| <= |b|
  {
    if a != {} {
      var x :| x in a;
      SubsetCard(a - {x}, b - {x});
    }
  }

  /** With valid keys there are at most 63 picks, and 63 exactly when every matchup is picked. */
  lemma ValidPicksBounded(picks: Picks)
    ensures AllKeysValid(picks) ==> CountPicks(picks) <= TOTAL_PICKS
    ensures AllKeysValid(picks) ==> (IsBracketComplete(picks) <==> forall k :: IsValidKey(k) ==> k in picks)
  {
    if AllKeysValid(picks) {
      ValidKeysCard();
      assert picks.Keys <= ValidKeys();
      SubsetCard(picks.Keys, ValidKeys());
      CompleteIffEveryMatchupPicked(picks);
    }
  }

  /**
   * Completeness only counts keys: for a map whose keys are all valid it is
   * the same as every one of the 63 matchups being picked.
   */
  lemma CompleteIffEveryMatchupPicked(picks: Picks)
    requires AllKeysValid(picks)
    ensures IsBracketComplete(picks) <==> forall k :: IsValidKey(k) ==> k in picks
  {
    ValidKeysCard();
    assert picks.Keys <= ValidKeys();
    if IsBracketComplete(picks) {
      SubsetOfEqualSize(picks.Keys, ValidKeys());
    }
    if forall k :: IsValidKey(k) ==> k in picks {
      assert picks.Keys == ValidKeys();
    }
  }

  /** The keys (round, lo), ..., (round, lo + n - 1). */
  function Block(round: nat, lo: nat, n: nat): set<Key>
  {
    set j | lo <= j < lo + n :: Key(round, j)
  }

  lemma BlockStep(round: nat, lo: nat, n: nat)
    requires n > 0
    ensures Block(round, lo, n) == Block(round, lo, n - 1) + {Key(round, lo + n - 1)}
    ensures Key(round, lo + n - 1) !in Block(round, lo, n - 1)
  {
  }

  /** A block of n keys has n elements. */
  lemma {:induction false} BlockCard(round: nat, lo: nat, n: nat)
    ensures |Block(round, lo, n)| == n
  {
    if n > 0 {
      BlockCard(round, lo, n - 1);
      BlockStep(round, lo, n);
    }
  }

  lemma BlocksOfDifferentRounds(r1: nat, lo1: nat, n1: nat, r2: nat, lo2: nat, n2: nat)
    requires r1 != r2
    ensures Block(r1, lo1, n1) !! Block(r2, lo2, n2)
  {
  }

  /** Intersection distributes over a disjoint union, and so does counting. */
  lemma CountOverDisjointUnion(p: set<Key>, a: set<Key>, b: set<Key>)
    requires a !! b
    ensures p * (a + b) == (p * a) + (p * b)
    ensures |p * (a + b)| == |p * a| + |p * b|
  {
    assert (p * a) !! (p * b);
  }

  /** How many of the keys (round, lo .. lo + n - 1) hold a pick. */
  function {:induction false} CountPresent(picks: Picks, round: nat, lo: nat, n: nat): (c: nat)
    ensures c == |picks.Keys * Block(round, lo, n)|
    ensures c <= n
  {
    if n == 0 then
      assert picks.Keys * Block(round, lo, 0) == {};
      0
    else
      var k := Key(round, lo + n - 1);
      var rest := CountPresent(picks, round, lo, n - 1);
      BlockStep(round, lo, n);
      CountOverDisjointUnion(picks.Keys, Block(round, lo, n - 1), {k});
      if k in picks then
        assert picks.Keys * {k} == {k};
        rest + 1
      else
        assert picks.Keys * {k} == {};
        rest
  }

  lemma CountPresentStep(picks: Picks, round: nat, lo: nat, i: nat)
    ensures CountPresent(picks, round, lo, i + 1)
         == CountPresent(picks, round, lo, i) + if Key(round, lo + i) in picks then 1 else 0
  {
  }

  /** The 15 keys of rounds 1..4 that belong to region number regionIndex. */
  function RegionKeys(regionIndex: nat): set<Key>
  {
    Block(1, 8 * regionIndex, 8) + Block(2, 4 * regionIndex, 4)
    + Block(3, 2 * regionIndex, 2) + Block(4, regionIndex, 1)
  }

  /** RegionKeys are exactly the valid keys whose region is REGIONS[regionIndex]. */
  lemma RegionKeysAreTheRegion(regionIndex: nat, k: Key)
    requires regionIndex < 4 && IsValidKey(k)
    ensures k in RegionKeys(regionIndex) <==> RegionOf(k.round, k.idx) == Some(REGIONS[regionIndex])
  {
    RegionOfValidKey(k);
    RegionsDistinct();
    assert Pow2(0) == 1 && Pow2(1) == 2 && Pow2(2) == 4 && Pow2(3) == 8;
  }

  lemma DisjointUnionCard(a: set<Key>, b: set<Key>)
    requires a !! b
    ensures |a + b| == |a| + |b|
  {
  }

  /** A region has 15 matchups, all valid and all in rounds 1..4. */
  lemma RegionKeysCard(regionIndex: nat)
    requires regionIndex < 4
    ensures |RegionKeys(regionIndex)| == 15
    ensures forall k :: k in RegionKeys(regionIndex) ==> IsValidKey(k) && k.round <= 4
  {
    var b1, b2, b3, b4 := Block(1, 8 * regionIndex, 8), Block(2, 4 * regionIndex, 4),
                          Block(3, 2 * regionIndex, 2), Block(4, regionIndex, 1);
    BlockCard(1, 8 * regionIndex, 8);
    BlockCard(2, 4 * regionIndex, 4);
    BlockCard(3, 2 * regionIndex, 2);
    BlockCard(4, regionIndex, 1);
    BlocksOfDifferentRounds(1, 8 * regionIndex, 8, 2, 4 * regionIndex, 4);
    DisjointUnionCard(b1, b2);
    BlocksOfDifferentRounds(1, 8 * regionIndex, 8, 3, 2 * regionIndex, 2);
    BlocksOfDifferentRounds(2, 4 * regionIndex, 4, 3, 2 * regionIndex, 2);
    DisjointUnionCard(b1 + b2, b3);
    BlocksOfDifferentRounds(1, 8 * regionIndex, 8, 4, regionIndex, 1);
    BlocksOfDifferentRounds(2, 4 * regionIndex, 4, 4, regionIndex, 1);
    BlocksOfDifferentRounds(3, 2 * regionIndex, 2, 4, regionIndex, 1);
    DisjointUnionCard(b1 + b2 + b3, b4);
    RegionKeysValid(regionIndex);
  }

  lemma RegionKeysValid(regionIndex: nat)
    requires regionIndex < 4
    ensures forall k :: k in RegionKeys(regionIndex) ==> IsValidKey(k) && k.round <= 4
  {
    RoundSizes();
  }

  /** The picks in a region's four blocks, block by block. */
  function RegionCount(picks: Picks, regionIndex: nat): nat
  {
    CountPresent(picks, 1, 8 * regionIndex, 8) + CountPresent(picks, 2, 4 * regionIndex, 4)
    + CountPresent(picks, 3, 2 * regionIndex, 2) + CountPresent(picks, 4, regionIndex, 1)
  }

  /** Counting over four pairwise disjoint parts adds up the parts. */
  lemma CountOverFourParts(p: set<Key>, b1: set<Key>, b2: set<Key>, b3: set<Key>, b4: set<Key>)
    requires b1 !! b2 && b1 !! b3 && b1 !! b4 && b2 !! b3 && b2 !! b4 && b3 !! b4
    ensures |p * (b1 + b2 + b3 + b4)| == |p * b1| + |p * b2| + |p * b3| + |p * b4|
  {
    CountOverDisjointUnion(p, b1, b2);
    CountOverDisjointUnion(p, b1 + b2, b3);
    CountOverDisjointUnion(p, b1 + b2 + b3, b4);
  }

  lemma RegionKeysCount(picks: Picks, regionIndex: nat)
    ensures |picks.Keys * RegionKeys(regionIndex)| == RegionCount(picks, regionIndex)
  {
    var b1, b2, b3, b4 := Block(1, 8 * regionIndex, 8), Block(2, 4 * regionIndex, 4),
                          Block(3, 2 * regionIndex, 2), Block(4, regionIndex, 1);
    BlocksOfDifferentRounds(1, 8 * regionIndex, 8, 2, 4 * regionIndex, 4);
    BlocksOfDifferentRounds(1, 8 * regionIndex, 8, 3, 2 * regionIndex, 2);
    BlocksOfDifferentRounds(1, 8 * regionIndex, 8, 4, regionIndex, 1);
    BlocksOfDifferentRounds(2, 4 * regionIndex, 4, 3, 2 * regionIndex, 2);
    BlocksOfDifferentRounds(2, 4 * regionIndex, 4, 4, regionIndex, 1);
    BlocksOfDifferentRounds(3, 2 * regionIndex, 2, 4, regionIndex, 1);
    CountOverFourParts(picks.Keys, b1, b2, b3, b4);
  }

  /** One counting loop of `getRegionPickCount`: the picks among keys (round, lo .. lo + n - 1). */
  method CountBlock(picks: Picks, round: nat, lo: nat, n: nat) returns (count: nat)
    ensures count == CountPresent(picks, round, lo, n)
  {
    count := 0;
    for i := 0 to n
      invariant count == CountPresent(picks, round, lo, i)
    {
      CountPresentStep(picks, round, lo, i);
      if Key(round, lo + i) in picks {
        count := count + 1;
      }
    }
  }

  /** `getRegionPickCount`: how many of a region's 15 matchups (rounds 1..4) hold a pick. */
  method GetRegionPickCount(picks: Picks, regionIndex: nat) returns (count: nat)
    ensures count == |picks.Keys * RegionKeys(regionIndex)|
    ensures count <= 15
  {
    var round1 := CountBlock(picks, 1, 8 * regionIndex, 8);
    var round2 := CountBlock(picks, 2, 4 * regionIndex, 4);
    var round3 := CountBlock(picks, 3, 2 * regionIndex, 2);
    var round4 := CountBlock(picks, 4, regionIndex, 1);
    count := round1 + round2 + round3 + round4;
    assert count == RegionCount(picks, regionIndex) <= 15;
    RegionKeysCount(picks, regionIndex);
  }

  /** `getRegionWinner`: the artist picked to win the region's round-4 matchup. */
  function GetRegionWinner(picks: Picks, artists: seq<Artist>, regionIndex: nat): (r: Option<Artist>)
    ensures r.Some? ==> Key(4, regionIndex) in picks && r.value in artists
                        && r.value.id == picks[Key(4, regionIndex)].winnerId
    ensures r.Some? ==> exists j :: 0 <= j < |artists| && artists[j] == r.value
                          && forall i :: 0 <= i < j ==> artists[i].id != picks[Key(4, regionIndex)].winnerId
    ensures r.None? <==> Key(4, regionIndex) !in picks
                         || forall a :: a in artists ==> a.id != picks[Key(4, regionIndex)].winnerId
  {
    PickedArtist(picks, Key(4, regionIndex), artists)
  }

  /** The region winner is the artist who enters the final four from that region's slot. */
  lemma RegionWinnerEntersFinalFour(picks: Picks, artists: seq<Artist>, regionIndex: nat)
    ensures var (a, b) := GetMatchupArtists(5, regionIndex / 2, picks, artists);
            GetRegionWinner(picks, artists, regionIndex) == if regionIndex % 2 == 0 then a else b
  {
  }
}
