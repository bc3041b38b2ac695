/**
 * The fixed tables of the tournament: the four regions, the escalating
 * points per round, the number of games per round and the round-1 seeding.
 */
module Constants {

  /** The four regions, in the order the bracket lays them out. */
  datatype Region = Vocalists | Bandleaders | Composers | Soloists

  const REGIONS: seq<Region> := [Vocalists, Bandleaders, Composers, Soloists]

  /** Points awarded for one correct pick, by round. */
  const POINTS_PER_ROUND: map<nat, nat> := map[1 := 1, 2 := 2, 3 := 4, 4 := 8, 5 := 16, 6 := 32]

  /** Number of matchups played in each round. */
  const GAMES_PER_ROUND: map<nat, nat> := map[1 := 32, 2 := 16, 3 := 8, 4 := 4, 5 := 2, 6 := 1]

  const MAX_POSSIBLE_SCORE: nat := 192

  const TOTAL_PICKS: nat := 63

  /** Round-1 pairings inside a 16-entrant region; entry i is the seed pair of regional matchup i. */
  const ROUND_1_SEED_MATCHUPS: seq<(nat, nat)> :=
    [(1, 16), (8, 9), (5, 12), (4, 13), (6, 11), (3, 14), (7, 10), (2, 15)]

  function Pow2(n: nat): (p: nat)
    ensures p >= 1
  {
    if n == 0 then 1 else 2 * Pow2(n - 1)
  }

  /** Position of a region in REGIONS (`REGIONS.indexOf`). */
  function RegionIndex(region: Region): (i: nat)
    ensures i < |REGIONS| && REGIONS[i] == region
  {
    match region
    case Vocalists => 0
    case Bandleaders => 1
    case Composers => 2
    case Soloists => 3
  }

  /** Both tables are defined on exactly the rounds 1..6. */
  lemma RoundTablesDomain()
    ensures forall r :: r in POINTS_PER_ROUND <==> 1 <= r <= 6
    ensures forall r :: r in GAMES_PER_ROUND <==> 1 <= r <= 6
  {
  }

  /** Games halve each round: 2^(6-r). */
  lemma GamesPerRoundIsPowerOfTwo(r: nat)
    requires 1 <= r <= 6
    ensures r in GAMES_PER_ROUND && GAMES_PER_ROUND[r] == Pow2(6 - r)
  {
  }

  /** Points double each round: 2^(r-1). */
  lemma PointsPerRoundIsPowerOfTwo(r: nat)
    requires 1 <= r <= 6
    ensures r in POINTS_PER_ROUND && POINTS_PER_ROUND[r] == Pow2(r - 1)
  {
  }

  /** Every round is worth the same 32 points when all of its picks are right. */
  lemma {:induction false} EachRoundWorth32(r: nat)
    requires 1 <= r <= 6
    ensures r in POINTS_PER_ROUND && r in GAMES_PER_ROUND
    ensures POINTS_PER_ROUND[r] * GAMES_PER_ROUND[r] == 32
  {
    PointsPerRoundIsPowerOfTwo(r);
    GamesPerRoundIsPowerOfTwo(r);
    Pow2Add(r - 1, 6 - r);
  }

  lemma {:induction false} Pow2Add(a: nat, b: nat)
    ensures Pow2(a) * Pow2(b) == Pow2(a + b)
  {
    if a > 0 {
      Pow2Add(a - 1, b);
    }
  }

  /** The table totals: 192 points and 63 picks. */
  lemma TableTotals()
    ensures POINTS_PER_ROUND[1] * GAMES_PER_ROUND[1] + POINTS_PER_ROUND[2] * GAMES_PER_ROUND[2]
          + POINTS_PER_ROUND[3] * GAMES_PER_ROUND[3] + POINTS_PER_ROUND[4] * GAMES_PER_ROUND[4]
          + POINTS_PER_ROUND[5] * GAMES_PER_ROUND[5] + POINTS_PER_ROUND[6] * GAMES_PER_ROUND[6]
          == MAX_POSSIBLE_SCORE
    ensures GAMES_PER_ROUND[1] + GAMES_PER_ROUND[2] + GAMES_PER_ROUND[3]
          + GAMES_PER_ROUND[4] + GAMES_PER_ROUND[5] + GAMES_PER_ROUND[6] == TOTAL_PICKS
  {
  }

  /** The 16 seeds of the round-1 pairings, flattened in table order. */
  function SeedList(): (s: seq<nat>)
    ensures |s| == 2 * |ROUND_1_SEED_MATCHUPS|
    ensures forall i :: 0 <= i < |ROUND_1_SEED_MATCHUPS| ==>
              s[2 * i] == ROUND_1_SEED_MATCHUPS[i].0 && s[2 * i + 1] == ROUND_1_SEED_MATCHUPS[i].1
  {
    [1, 16, 8, 9, 5, 12, 4, 13, 6, 11, 3, 14, 7, 10, 2, 15]
  }

  /** Eight pairings, each summing to 17 (the strongest seed meets the weakest). */
  lemma SeedPairsSumTo17()
    ensures |ROUND_1_SEED_MATCHUPS| == 8
    ensures forall i :: 0 <= i < 8 ==> ROUND_1_SEED_MATCHUPS[i].0 + ROUND_1_SEED_MATCHUPS[i].1 == 17
  {
  }

  /** The position of each seed 1..16 in SeedList. */
  function SeedPosition(v: nat): (i: nat)
    requires 1 <= v <= 16
    ensures i < 16 && SeedList()[i] == v
  {
    [0, 0, 14, 10, 6, 4, 8, 12, 2, 3, 13, 9, 5, 7, 11, 15, 1][v]
  }

  /** Every seed 1..16 appears in the pairings, and nothing else does. */
  lemma SeedsCovered()
    ensures forall s :: 1 <= s <= 16 <==> s in SeedList()
  {
    forall v | 1 <= v <= 16 ensures v in SeedList() {
      assert SeedList()[SeedPosition(v)] == v;
    }
  }

  /** No seed appears twice: SeedPosition is a left inverse of the list. */
  lemma SeedsDistinct()
    ensures forall i, j :: 0 <= i < j < |SeedList()| ==> SeedList()[i] != SeedList()[j]
  {
    var s := SeedList();
    assert forall i :: 0 <= i < 16 ==> 1 <= s[i] <= 16 && SeedPosition(s[i]) == i;
  }

  /** The four regions are distinct. */
  lemma RegionsDistinct()
    ensures |REGIONS| == 4
    ensures forall i, j :: 0 <= i < j < |REGIONS| ==> REGIONS[i] != REGIONS[j]
  {
  }
}
