/**
 * Scoring of a participant bracket against the master bracket, and the
 * leaderboard ordering (src/lib/scoring.ts).
 *
 * Only revealed rounds score. A correct pick in round r is worth
 * POINTS_PER_ROUND[r] (1, 2, 4, 8, 16, 32), so every round is worth 32 points
 * and a perfect bracket 192.
 */
module Scoring {
  import opened Wrappers
  import opened Constants
  import opened MatchupKeys
  import opened BracketUtils

  /** What scoreSubmission returns. byRound and maxPossibleByRound are keyed by round 1..6. */
  datatype ScoreResult = ScoreResult(
    total: nat,
    byRound: map<nat, nat>,
    maxPossible: nat,
    maxPossibleByRound: map<nat, nat>)

  // ---------------------------------------------------------------------------
  // Specification
  // ---------------------------------------------------------------------------

  /** Points for one correct pick in a round. */
  function RoundPoints(round: nat): (p: nat)
    requires 1 <= round <= 6
    ensures round in POINTS_PER_ROUND && p == POINTS_PER_ROUND[round]
    ensures p == Pow2(round - 1)
  {
    PointsPerRoundIsPowerOfTwo(round);
    POINTS_PER_ROUND[round]
  }

  /** The participant picked the master's winner for this key of this round. */
  predicate IsHit(picks: Picks, master: Picks, round: nat, k: Key)
  {
    k in master && k.round == round && k in picks && picks[k].winnerId == master[k].winnerId
  }

  /** The master keys of a round on which the participant picked the same winner. */
  function Hits(picks: Picks, master: Picks, round: nat): set<Key>
  {
    set k | k in master && IsHit(picks, master, round, k)
  }

  /** Points a participant earns in one round, zero while the round is unrevealed. */
  function RoundScore(picks: Picks, master: Picks, round: nat, revealedThroughRound: int): nat
    requires 1 <= round <= 6
  {
    if round > revealedThroughRound then 0 else |Hits(picks, master, round)| * RoundPoints(round)
  }

  /** Sum of RoundScore over rounds 1..n. */
  function TotalScore(picks: Picks, master: Picks, revealedThroughRound: int, n: nat): nat
    requires n <= 6
  {
    if n == 0 then 0
    else TotalScore(picks, master, revealedThroughRound, n - 1) + RoundScore(picks, master, n, revealedThroughRound)
  }

  /** Points available in one round whatever is revealed. */
  function RoundMaximum(round: nat): nat
    requires 1 <= round <= 6
  {
    RoundPoints(round) * MatchupsInRound(round)
  }

  /** Sum of RoundMaximum over rounds 1..n. */
  function MaximumUpTo(n: nat): nat
    requires n <= 6
  {
    if n == 0 then 0 else MaximumUpTo(n - 1) + RoundMaximum(n)
  }

  /** byRound after rounds 1..n have been entered. */
  function RoundScores(picks: Picks, master: Picks, revealedThroughRound: int, n: nat): map<nat, nat>
    requires n <= 6
  {
    if n == 0 then map[]
    else RoundScores(picks, master, revealedThroughRound, n - 1)[n := RoundScore(picks, master, n, revealedThroughRound)]
  }

  /** maxPossibleByRound after rounds 1..n have been entered. */
  function RoundMaxima(n: nat): map<nat, nat>
    requires n <= 6
  {
    if n == 0 then map[] else RoundMaxima(n - 1)[n := RoundMaximum(n)]
  }

  /** The score the source computes, written as a value. */
  function ScoreOf(picks: Picks, master: Picks, revealedThroughRound: int): (res: ScoreResult)
    ensures forall r :: r in res.byRound <==> 1 <= r <= 6
    ensures forall r :: 1 <= r <= 6 ==> res.byRound[r] == RoundScore(picks, master, r, revealedThroughRound)
    ensures forall r :: r in res.maxPossibleByRound <==> 1 <= r <= 6
    ensures forall r :: 1 <= r <= 6 ==> res.maxPossibleByRound[r] == RoundMaximum(r)
  {
    RoundScoresContents(picks, master, revealedThroughRound, 6);
    RoundMaximaContents(6);
    ScoreResult(
      TotalScore(picks, master, revealedThroughRound, 6),
      RoundScores(picks, master, revealedThroughRound, 6),
      MaximumUpTo(6),
      RoundMaxima(6))
  }

  /** byRound holds exactly the rounds entered, each with its score. */
  lemma {:induction false} RoundScoresContents(picks: Picks, master: Picks, revealedThroughRound: int, n: nat)
    requires n <= 6
    ensures forall r :: r in RoundScores(picks, master, revealedThroughRound, n) <==> 1 <= r <= n
    ensures forall r :: 1 <= r <= n ==>
              RoundScores(picks, master, revealedThroughRound, n)[r] == RoundScore(picks, master, r, revealedThroughRound)
  {
    if n > 0 {
      RoundScoresContents(picks, master, revealedThroughRound, n - 1);
      var prev := RoundScores(picks, master, revealedThroughRound, n - 1);
      assert RoundScores(picks, master, revealedThroughRound, n)
          == prev[n := RoundScore(picks, master, n, revealedThroughRound)];
      forall r ensures r in RoundScores(picks, master, revealedThroughRound, n) <==> 1 <= r <= n {
        assert r in RoundScores(picks, master, revealedThroughRound, n) <==> r in prev || r == n;
      }
      forall r | 1 <= r < n
        ensures RoundScores(picks, master, revealedThroughRound, n)[r] == RoundScore(picks, master, r, revealedThroughRound)
      {
        assert RoundScores(picks, master, revealedThroughRound, n)[r] == prev[r];
      }
    }
  }

  /** maxPossibleByRound holds exactly the rounds entered, each with its maximum. */
  lemma {:induction false} RoundMaximaContents(n: nat)
    requires n <= 6
    ensures forall r :: r in RoundMaxima(n) <==> 1 <= r <= n
    ensures forall r :: 1 <= r <= n ==> RoundMaxima(n)[r] == RoundMaximum(r)
  {
    if n > 0 {
      RoundMaximaContents(n - 1);
      var prev := RoundMaxima(n - 1);
      assert RoundMaxima(n) == prev[n := RoundMaximum(n)];
      forall r ensures r in RoundMaxima(n) <==> 1 <= r <= n {
        assert r in RoundMaxima(n) <==> r in prev || r == n;
      }
      forall r | 1 <= r < n ensures RoundMaxima(n)[r] == RoundMaximum(r) {
        assert RoundMaxima(n)[r] == prev[r];
      }
    }
  }

  // ---------------------------------------------------------------------------
  // scoreSubmission
  // ---------------------------------------------------------------------------

  /**
   * `scoreSubmission`: one pass per round over the master picks, counting
   * the ones the participant matched, skipping unrevealed rounds.
   */
  method ScoreSubmission(picks: Picks, master: Picks, revealedThroughRound: int) returns (res: ScoreResult)
    ensures res == ScoreOf(picks, master, revealedThroughRound)
  {
    var byRound: map<nat, nat> := map[];
    var maxPossibleByRound: map<nat, nat> := map[];
    var total: nat := 0;
    var maxPossible: nat := 0;
    for round := 1 to 7
      invariant total == TotalScore(picks, master, revealedThroughRound, round - 1)
      invariant maxPossible == MaximumUpTo(round - 1)
      invariant byRound == RoundScores(picks, master, revealedThroughRound, round - 1)
      invariant maxPossibleByRound == RoundMaxima(round - 1)
    {
      ScoreStep(picks, master, revealedThroughRound, round);
      var points := RoundPoints(round);
      maxPossibleByRound := maxPossibleByRound[round := RoundMaximum(round)];
      maxPossible := maxPossible + RoundMaximum(round);
      if round > revealedThroughRound {
        byRound := byRound[round := 0];
        continue;
      }
      var roundScore := ScoreRound(picks, master, round, points);
      byRound := byRound[round := roundScore];
      total := total + roundScore;
    }
    res := ScoreResult(total, byRound, maxPossible, maxPossibleByRound);
  }

  /** What entering one more round adds to each running quantity of `scoreSubmission`. */
  lemma ScoreStep(picks: Picks, master: Picks, revealedThroughRound: int, round: nat)
    requires 1 <= round <= 6
    ensures TotalScore(picks, master, revealedThroughRound, round)
         == TotalScore(picks, master, revealedThroughRound, round - 1) + RoundScore(picks, master, round, revealedThroughRound)
    ensures RoundScores(picks, master, revealedThroughRound, round)
         == RoundScores(picks, master, revealedThroughRound, round - 1)[round := RoundScore(picks, master, round, revealedThroughRound)]
    ensures MaximumUpTo(round) == MaximumUpTo(round - 1) + RoundMaximum(round)
    ensures RoundMaxima(round) == RoundMaxima(round - 1)[round := RoundMaximum(round)]
    ensures round > revealedThroughRound ==> RoundScore(picks, master, round, revealedThroughRound) == 0
  {
  }

  /**
   * The inner loop of `scoreSubmission`: walk the master picks in any order
   * and add the round's points for each one of this round the participant
   * matched.
   */
  method ScoreRound(picks: Picks, master: Picks, round: nat, points: nat) returns (roundScore: nat)
    ensures roundScore == |Hits(picks, master, round)| * points
  {
    roundScore := 0;
    ghost var hits: nat := 0;
    var remaining := master.Keys;
    while remaining != {}
      invariant remaining <= master.Keys
      invariant hits == |Hits(picks, master, round) - remaining|
      invariant roundScore == Repeated(hits, points)
      decreases |remaining|
    {
      var key :| key in remaining;
      var hit := key.round == round && key in picks && picks[key].winnerId == master[key].winnerId;
      CountStep(picks, master, round, remaining, key, hit, hits);
      if hit {
        roundScore := roundScore + points;
        hits := hits + 1;
      }
      remaining := remaining - {key};
    }
    CountDone(picks, master, round, hits, points);
  }

  /** Taking `key` out of `remaining` counts one more hit exactly when it is one. */
  lemma CountStep(picks: Picks, master: Picks, round: nat, remaining: set<Key>, key: Key, hit: bool, hits: nat)
    requires key in remaining && key in master
    requires hit == (key.round == round && key in picks && picks[key].winnerId == master[key].winnerId)
    requires hits == |Hits(picks, master, round) - remaining|
    ensures (if hit then hits + 1 else hits) == |Hits(picks, master, round) - (remaining - {key})|
    ensures |remaining - {key}| < |remaining|
  {
    assert hit <==> key in Hits(picks, master, round);
    RemoveOne(Hits(picks, master, round), remaining, key);
  }

  /** Once every key has been visited the count is the number of hits. */
  lemma CountDone(picks: Picks, master: Picks, round: nat, hits: nat, points: nat)
    requires hits == |Hits(picks, master, round) - {}|
    ensures Repeated(hits, points) == |Hits(picks, master, round)| * points
  {
    assert Hits(picks, master, round) - {} == Hits(picks, master, round);
    RepeatedIsProduct(hits, points);
  }

  /** `p` added to itself `n` times, as the inner loop accumulates it. */
  function Repeated(n: nat, p: nat): nat
  {
    if n == 0 then 0 else Repeated(n - 1, p) + p
  }

  lemma {:induction false} RepeatedIsProduct(n: nat, p: nat)
    ensures Repeated(n, p) == n * p
  {
    if n > 0 {
      RepeatedIsProduct(n - 1, p);
      assert n * p == (n - 1) * p + p;
    }
  }

  /** Moving one element out of `remaining` adds it to h - remaining exactly when it is in h. */
  lemma RemoveOne<T>(h: set<T>, remaining: set<T>, x: T)
    requires x in remaining
    ensures |h - (remaining - {x})| == |h - remaining| + if x in h then 1 else 0
  {
    if x in h {
      assert h - (remaining - {x}) == (h - remaining) + {x};
    } else {
      assert h - (remaining - {x}) == h - remaining;
    }
  }

  // ---------------------------------------------------------------------------
  // Properties of the score
  // ---------------------------------------------------------------------------

  /** Every round offers 32 points, so rounds 1..n offer 32 * n. */
  lemma {:induction false} MaximumUpToIs32PerRound(n: nat)
    requires n <= 6
    ensures MaximumUpTo(n) == 32 * n
  {
    if n > 0 {
      MaximumUpToIs32PerRound(n - 1);
      EachRoundWorth32(n);
    }
  }

  /** maxPossible is 192 and each round's maximum 32, whatever the picks and the reveal state. */
  lemma MaximumIs192(picks: Picks, master: Picks, revealedThroughRound: int)
    ensures ScoreOf(picks, master, revealedThroughRound).maxPossible == MAX_POSSIBLE_SCORE
    ensures forall r :: 1 <= r <= 6 ==> ScoreOf(picks, master, revealedThroughRound).maxPossibleByRound[r] == 32
  {
    MaximumUpToIs32PerRound(6);
    RoundScoresContents(picks, master, revealedThroughRound, 6);
    RoundMaximaContents(6);
    forall r | 1 <= r <= 6 ensures RoundMaximum(r) == 32 {
      EachRoundWorth32(r);
    }
  }

  /** Unrevealed rounds score nothing; with no revealed round the total is zero. */
  lemma {:induction false} UnrevealedRoundsScoreZero(picks: Picks, master: Picks, revealedThroughRound: int, n: nat)
    requires n <= 6
    ensures forall r :: 1 <= r <= 6 && r > revealedThroughRound ==>
              ScoreOf(picks, master, revealedThroughRound).byRound[r] == 0
    ensures revealedThroughRound < 1 ==> TotalScore(picks, master, revealedThroughRound, n) == 0
  {
    RoundScoresContents(picks, master, revealedThroughRound, 6);
    RoundMaximaContents(6);
    if n > 0 {
      UnrevealedRoundsScoreZero(picks, master, revealedThroughRound, n - 1);
    }
  }

  /** The total is the sum of byRound. */
  lemma TotalIsSumOfRounds(picks: Picks, master: Picks, revealedThroughRound: int)
    ensures var s := ScoreOf(picks, master, revealedThroughRound);
            s.total == s.byRound[1] + s.byRound[2] + s.byRound[3] + s.byRound[4] + s.byRound[5] + s.byRound[6]
  {
    RoundScoresContents(picks, master, revealedThroughRound, 6);
    RoundMaximaContents(6);
    assert TotalScore(picks, master, revealedThroughRound, 1) == RoundScore(picks, master, 1, revealedThroughRound);
    assert TotalScore(picks, master, revealedThroughRound, 2)
        == TotalScore(picks, master, revealedThroughRound, 1) + RoundScore(picks, master, 2, revealedThroughRound);
    assert TotalScore(picks, master, revealedThroughRound, 3)
        == TotalScore(picks, master, revealedThroughRound, 2) + RoundScore(picks, master, 3, revealedThroughRound);
    assert TotalScore(picks, master, revealedThroughRound, 4)
        == TotalScore(picks, master, revealedThroughRound, 3) + RoundScore(picks, master, 4, revealedThroughRound);
    assert TotalScore(picks, master, revealedThroughRound, 5)
        == TotalScore(picks, master, revealedThroughRound, 4) + RoundScore(picks, master, 5, revealedThroughRound);
  }

  /** The master keys filed under one round, whatever their index. */
  function MasterKeysOfRound(master: Picks, round: nat): (keys: set<Key>)
    ensures forall k :: k in keys <==> k in master && k.round == round
  {
    set k | k in master && k.round == round
  }

  /** No round of the master holds more keys than the round has matchups. */
  predicate RoundsWithinSize(master: Picks)
  {
    forall r :: 1 <= r <= 6 ==> |MasterKeysOfRound(master, r)| <= MatchupsInRound(r)
  }

  /** A master with only valid keys holds at most a round's size of keys in each round. */
  lemma ValidMasterRoundsWithinSize(master: Picks)
    requires AllKeysValid(master)
    ensures RoundsWithinSize(master)
  {
    forall r | 1 <= r <= 6 ensures |MasterKeysOfRound(master, r)| <= MatchupsInRound(r) {
      assert MasterKeysOfRound(master, r) <= Block(r, 0, MatchupsInRound(r));
      SubsetCard(MasterKeysOfRound(master, r), Block(r, 0, MatchupsInRound(r)));
      BlockCard(r, 0, MatchupsInRound(r));
    }
  }

  /** A round whose master keys are no more than its matchups gives at most 32 points. */
  lemma RoundScoreAtMost32(picks: Picks, master: Picks, round: nat, revealedThroughRound: int)
    requires 1 <= round <= 6
    requires |MasterKeysOfRound(master, round)| <= MatchupsInRound(round)
    ensures RoundScore(picks, master, round, revealedThroughRound) <= 32
  {
    var m, p := MatchupsInRound(round), RoundPoints(round);
    HitsAtMostRoundSize(picks, master, round);
    MulLe(|Hits(picks, master, round)|, m, p);
    EachRoundWorth32(round);
    assert m * p == 32;
  }

  /** The hits of a round are among the round's master keys. */
  lemma HitsAtMostRoundSize(picks: Picks, master: Picks, round: nat)
    requires 1 <= round <= 6
    ensures |Hits(picks, master, round)| <= |MasterKeysOfRound(master, round)|
  {
    SubsetCard(Hits(picks, master, round), MasterKeysOfRound(master, round));
  }

  lemma MulLe(a: nat, b: nat, c: nat)
    requires a <= b
    ensures a * c <= b * c
  {
  }

  /** The first n rounds score at most 32 points each when no round is oversized. */
  lemma {:induction false} TotalAtMost32PerRound(picks: Picks, master: Picks, revealedThroughRound: int, n: nat)
    requires n <= 6
    requires RoundsWithinSize(master)
    ensures TotalScore(picks, master, revealedThroughRound, n) <= 32 * n
  {
    if n > 0 {
      TotalAtMost32PerRound(picks, master, revealedThroughRound, n - 1);
      RoundScoreAtMost32(picks, master, n, revealedThroughRound);
    }
  }

  /** When no round is oversized, no round scores over 32 and the total never exceeds 192. */
  lemma ScoreAtMostMaximum(picks: Picks, master: Picks, revealedThroughRound: int)
    requires RoundsWithinSize(master)
    ensures ScoreOf(picks, master, revealedThroughRound).total <= MAX_POSSIBLE_SCORE
    ensures forall r :: 1 <= r <= 6 ==> ScoreOf(picks, master, revealedThroughRound).byRound[r] <= 32
  {
    TotalAtMost32PerRound(picks, master, revealedThroughRound, 6);
    RoundScoresContents(picks, master, revealedThroughRound, 6);
    RoundMaximaContents(6);
    forall r | 1 <= r <= 6 ensures RoundScore(picks, master, r, revealedThroughRound) <= 32 {
      RoundScoreAtMost32(picks, master, r, revealedThroughRound);
    }
  }

  /** In particular a master holding only valid keys bounds every score by 192. */
  lemma ValidMasterScoreAtMostMaximum(picks: Picks, master: Picks, revealedThroughRound: int)
    requires AllKeysValid(master)
    ensures ScoreOf(picks, master, revealedThroughRound).total <= MAX_POSSIBLE_SCORE
  {
    ValidMasterRoundsWithinSize(master);
    ScoreAtMostMaximum(picks, master, revealedThroughRound);
  }

  /** A master with too many keys in one round can score more than 32 there: the bound needs the premise. */
  lemma OversizedRoundExceeds32()
    ensures var master := map i: nat | i < 33 :: Key(1, i) := Pick("a", None);
            |MasterKeysOfRound(master, 1)| > MatchupsInRound(1)
            && RoundScore(master, master, 1, 1) == 33
  {
    var master := map i: nat | i < 33 :: Key(1, i) := Pick("a", None);
    var keys := Block(1, 0, 33);
    assert master.Keys == keys;
    assert MasterKeysOfRound(master, 1) == keys == Hits(master, master, 1);
    BlockCard(1, 0, 33);
    assert RoundPoints(1) == 1;
  }

  /** Revealing more rounds never lowers a score. */
  lemma {:induction false} TotalMonotoneInReveal(picks: Picks, master: Picks, revealed1: int, revealed2: int, n: nat)
    requires revealed1 <= revealed2
    requires n <= 6
    ensures TotalScore(picks, master, revealed1, n) <= TotalScore(picks, master, revealed2, n)
  {
    if n > 0 {
      TotalMonotoneInReveal(picks, master, revealed1, revealed2, n - 1);
    }
  }

  /**
   * Only the participant's picks on master keys matter: two pick maps that
   * agree there (present or not, and on the winner) score the same.
   */
  lemma ExtraPicksIgnored(picks1: Picks, picks2: Picks, master: Picks, revealedThroughRound: int)
    requires forall k :: k in master ==> (k in picks1 <==> k in picks2)
    requires forall k :: k in master && k in picks1 ==> picks1[k].winnerId == picks2[k].winnerId
    ensures ScoreOf(picks1, master, revealedThroughRound) == ScoreOf(picks2, master, revealedThroughRound)
  {
    forall r | 1 <= r <= 6 ensures Hits(picks1, master, r) == Hits(picks2, master, r) {
    }
    SameRoundScores(picks1, picks2, master, revealedThroughRound, 6);
  }

  lemma {:induction false} SameRoundScores(picks1: Picks, picks2: Picks, master: Picks, revealedThroughRound: int, n: nat)
    requires n <= 6
    requires forall r :: 1 <= r <= 6 ==> Hits(picks1, master, r) == Hits(picks2, master, r)
    ensures TotalScore(picks1, master, revealedThroughRound, n) == TotalScore(picks2, master, revealedThroughRound, n)
  {
    if n > 0 {
      SameRoundScores(picks1, picks2, master, revealedThroughRound, n - 1);
    }
  }

  /** A single correct first-round pick with round 1 revealed is worth one point. */
  lemma OneCorrectFirstRoundPick(id: string)
    ensures var p := map[Key(1, 0) := Pick(id, None)];
            ScoreOf(p, p, 1).total == 1
  {
    var p := map[Key(1, 0) := Pick(id, None)];
    assert Hits(p, p, 1) == {Key(1, 0)};
    forall r | 2 <= r <= 6 ensures Hits(p, p, r) == {} {
    }
    TotalIsSumOfRounds(p, p, 1);
  }

  // ---------------------------------------------------------------------------
  // scoreAndRankSubmissions
  // ---------------------------------------------------------------------------

  datatype Submission = Submission(id: string, displayName: string, picks: Picks, accessToken: string)

  datatype Scored = Scored(id: string, displayName: string, accessToken: string, score: ScoreResult)

  datatype Ranked = Ranked(entry: Scored, rank: nat)

  /** The scored entry for one submission. */
  function ScoreEntry(sub: Submission, master: Picks, revealedThroughRound: int): Scored
  {
    Scored(sub.id, sub.displayName, sub.accessToken, ScoreOf(sub.picks, master, revealedThroughRound))
  }

  /** `submissions.map(...)`: the entries in submission order. */
  function ScoreAll(subs: seq<Submission>, master: Picks, revealedThroughRound: int): (r: seq<Scored>)
    ensures |r| == |subs|
    ensures forall i :: 0 <= i < |r| ==> r[i] == ScoreEntry(subs[i], master, revealedThroughRound)
  {
    seq(|subs|, i requires 0 <= i < |subs| => ScoreEntry(subs[i], master, revealedThroughRound))
  }

  predicate SortedDesc(s: seq<Scored>)
  {
    forall i, j :: 0 <= i < j < |s| ==> s[i].score.total >= s[j].score.total
  }

  /** The entries of s with a given total, in their order in s. */
  function WithTotal(s: seq<Scored>, t: nat): seq<Scored>
  {
    if s == [] then []
    else (if s[0].score.total == t then [s[0]] else []) + WithTotal(s[1..], t)
  }

  /** Insert x in front of the first entry whose total is not higher. */
  function InsertDesc(x: Scored, s: seq<Scored>): (r: seq<Scored>)
    ensures |r| == |s| + 1
  {
    if s == [] || s[0].score.total <= x.score.total then [x] + s
    else [s[0]] + InsertDesc(x, s[1..])
  }

  /** Inserting adds exactly the one entry. */
  lemma {:induction false} InsertDescPermutes(x: Scored, s: seq<Scored>)
    ensures multiset(InsertDesc(x, s)) == multiset(s) + multiset{x}
  {
    if s != [] && s[0].score.total > x.score.total {
      InsertDescPermutes(x, s[1..]);
      assert s == [s[0]] + s[1..];
    }
  }

  /**
   * The stable sort by descending total that `Array.prototype.sort` performs
   * with the comparator `b.score.total - a.score.total`.
   */
  function SortDesc(s: seq<Scored>): (r: seq<Scored>)
    ensures |r| == |s|
    ensures multiset(r) == multiset(s)
  {
    if s == [] then []
    else
      assert s == [s[0]] + s[1..];
      InsertDescPermutes(s[0], SortDesc(s[1..]));
      InsertDesc(s[0], SortDesc(s[1..]))
  }

  /** No entry of s has a total above b. */
  predicate AllAtMost(s: seq<Scored>, b: nat)
  {
    forall i :: 0 <= i < |s| ==> s[i].score.total <= b
  }

  /** Putting an entry no lower than the rest in front of a sorted list keeps it sorted. */
  lemma ConsSorted(y: Scored, s: seq<Scored>)
    requires SortedDesc(s) && AllAtMost(s, y.score.total)
    ensures SortedDesc([y] + s)
  {
    var r := [y] + s;
    forall i, j | 0 <= i < j < |r| ensures r[i].score.total >= r[j].score.total {
      assert r[j] == s[j - 1];
      if i > 0 {
        assert r[i] == s[i - 1];
      }
    }
  }

  /** A sorted list is bounded by its head. */
  lemma SortedBoundedByHead(s: seq<Scored>)
    requires SortedDesc(s) && s != []
    ensures AllAtMost(s, s[0].score.total) && AllAtMost(s[1..], s[0].score.total)
  {
    assert forall i :: 0 <= i < |s[1..]| ==> s[1..][i] == s[i + 1];
  }

  /** Inserting keeps a bound that both the entry and the list respect. */
  lemma {:induction false} InsertDescAtMost(x: Scored, s: seq<Scored>, b: nat)
    requires x.score.total <= b && AllAtMost(s, b)
    ensures AllAtMost(InsertDesc(x, s), b)
  {
    if s != [] && s[0].score.total > x.score.total {
      assert AllAtMost(s[1..], b) by {
        assert forall i :: 0 <= i < |s[1..]| ==> s[1..][i] == s[i + 1];
      }
      InsertDescAtMost(x, s[1..], b);
      var r := [s[0]] + InsertDesc(x, s[1..]);
      assert forall i :: 1 <= i < |r| ==> r[i] == InsertDesc(x, s[1..])[i - 1];
    }
  }

  lemma {:induction false} InsertDescSorted(x: Scored, s: seq<Scored>)
    requires SortedDesc(s)
    ensures SortedDesc(InsertDesc(x, s))
  {
    if s == [] {
      ConsSorted(x, s);
    } else if s[0].score.total <= x.score.total {
      SortedBoundedByHead(s);
      ConsSorted(x, s);
    } else {
      SortedBoundedByHead(s);
      assert SortedDesc(s[1..]) by {
        assert forall i :: 0 <= i < |s[1..]| ==> s[1..][i] == s[i + 1];
      }
      InsertDescSorted(x, s[1..]);
      InsertDescAtMost(x, s[1..], s[0].score.total);
      ConsSorted(s[0], InsertDesc(x, s[1..]));
    }
  }

  /** An entry with another total is dropped. */
  lemma WithTotalSkip(y: Scored, s: seq<Scored>, t: nat)
    requires y.score.total != t
    ensures WithTotal([y] + s, t) == WithTotal(s, t)
  {
    assert ([y] + s)[1..] == s;
  }

  /** An entry with the total is kept in front. */
  lemma WithTotalKeep(y: Scored, s: seq<Scored>, t: nat)
    requires y.score.total == t
    ensures WithTotal([y] + s, t) == [y] + WithTotal(s, t)
  {
    assert ([y] + s)[1..] == s;
  }

  /**
   * Inserting x moves it only past entries with higher totals, so the
   * entries of any one total keep their relative order.
   */
  lemma {:induction false} InsertDescStable(x: Scored, s: seq<Scored>, t: nat)
    ensures WithTotal(InsertDesc(x, s), t) == WithTotal([x] + s, t)
  {
    if s != [] && s[0].score.total > x.score.total {
      var a, tail := s[0], s[1..];
      var rest := InsertDesc(x, tail);
      InsertDescStable(x, tail, t);
      assert InsertDesc(x, s) == [a] + rest;
      assert s == [a] + tail;
      if a.score.total == t {
        WithTotalSkip(x, tail, t);
        WithTotalKeep(a, rest, t);
        WithTotalSkip(x, s, t);
        WithTotalKeep(a, tail, t);
      } else if x.score.total == t {
        WithTotalSkip(a, rest, t);
        WithTotalKeep(x, tail, t);
        WithTotalKeep(x, s, t);
        WithTotalSkip(a, tail, t);
      } else {
        WithTotalSkip(a, rest, t);
        WithTotalSkip(x, tail, t);
        WithTotalSkip(x, s, t);
        WithTotalSkip(a, tail, t);
      }
    }
  }

  /**
   * SortDesc orders by descending total and keeps entries with equal totals
   * in their original order (its contract adds that it keeps exactly the
   * same entries).
   */
  lemma {:induction false} SortDescProperties(s: seq<Scored>, t: nat)
    ensures SortedDesc(SortDesc(s))
    ensures WithTotal(SortDesc(s), t) == WithTotal(s, t)
  {
    if s != [] {
      SortDescProperties(s[1..], t);
      InsertDescSorted(s[0], SortDesc(s[1..]));
      InsertDescStable(s[0], SortDesc(s[1..]), t);
      assert ([s[0]] + SortDesc(s[1..]))[1..] == SortDesc(s[1..]);
    }
  }

  /** Number of entries among the first n whose total exceeds t. */
  function CountAbove(s: seq<Scored>, n: nat, t: nat): (c: nat)
    requires n <= |s|
    ensures c <= n
  {
    if n == 0 then 0 else CountAbove(s, n - 1, t) + if s[n - 1].score.total > t then 1 else 0
  }

  /** In a descending sequence, the entries above t are exactly a prefix. */
  lemma {:induction false} CountAbovePrefix(s: seq<Scored>, n: nat, t: nat, p: nat)
    requires n <= |s| && p <= |s|
    requires forall j :: 0 <= j < p ==> s[j].score.total > t
    requires forall j :: p <= j < |s| ==> s[j].score.total <= t
    ensures CountAbove(s, n, t) == if n < p then n else p
  {
    if n > 0 {
      CountAbovePrefix(s, n - 1, t, p);
    }
  }

  /** A higher total is beaten by no more entries than a lower one. */
  lemma {:induction false} CountAboveMonotone(s: seq<Scored>, n: nat, t1: nat, t2: nat)
    requires n <= |s| && t2 <= t1
    ensures CountAbove(s, n, t1) <= CountAbove(s, n, t2)
  {
    if n > 0 {
      CountAboveMonotone(s, n - 1, t1, t2);
    }
  }

  /** The `submissions.map(...)` step: score every submission, in order. */
  method ScoreEach(subs: seq<Submission>, master: Picks, revealedThroughRound: int) returns (scored: seq<Scored>)
    ensures scored == ScoreAll(subs, master, revealedThroughRound)
  {
    scored := [];
    for i := 0 to |subs|
      invariant |scored| == i
      invariant forall j :: 0 <= j < i ==> scored[j] == ScoreEntry(subs[j], master, revealedThroughRound)
    {
      var score := ScoreSubmission(subs[i].picks, master, revealedThroughRound);
      scored := scored + [Scored(subs[i].id, subs[i].displayName, subs[i].accessToken, score)];
    }
  }

  /**
   * The ranking step over the sorted entries: the rank moves to index + 1
   * whenever a total drops below the previous one. On a table sorted by
   * descending total this is one more than the number of entries with a
   * strictly higher total, so ties share a rank and the next rank skips
   * (1, 1, 3).
   */
  method AssignRanks(sorted: seq<Scored>) returns (ranked: seq<Ranked>)
    requires SortedDesc(sorted)
    ensures |ranked| == |sorted|
    ensures forall i :: 0 <= i < |ranked| ==> ranked[i].entry == sorted[i]
    ensures forall i :: 0 <= i < |ranked| ==>
              ranked[i].rank == 1 + CountAbove(sorted, |sorted|, sorted[i].score.total)
  {
    ranked := [];
    var currentRank: nat := 1;
    for index := 0 to |sorted|
      invariant |ranked| == index
      invariant forall j :: 0 <= j < index ==> ranked[j].entry == sorted[j]
      invariant forall j :: 0 <= j < index ==>
                  ranked[j].rank == 1 + CountAbove(sorted, |sorted|, sorted[j].score.total)
      invariant index > 0 ==> currentRank == ranked[index - 1].rank
      invariant index == 0 ==> currentRank == 1
    {
      if index > 0 && sorted[index].score.total < sorted[index - 1].score.total {
        currentRank := index + 1;
        CountAbovePrefix(sorted, |sorted|, sorted[index].score.total, index);
      } else if index == 0 {
        CountAbovePrefix(sorted, |sorted|, sorted[0].score.total, 0);
      }
      ranked := ranked + [Ranked(sorted[index], currentRank)];
    }
  }

  /**
   * `scoreAndRankSubmissions`: score each submission, sort by descending
   * total (stably), then assign competition ranks.
   */
  method ScoreAndRankSubmissions(subs: seq<Submission>, master: Picks, revealedThroughRound: int)
    returns (ranked: seq<Ranked>)
    ensures |ranked| == |subs|
    ensures forall i :: 0 <= i < |ranked| ==>
              ranked[i].entry == SortDesc(ScoreAll(subs, master, revealedThroughRound))[i]
    ensures forall i :: 0 <= i < |ranked| ==>
              ranked[i].rank == 1 + CountAbove(SortDesc(ScoreAll(subs, master, revealedThroughRound)), |subs|,
                                                ranked[i].entry.score.total)
  {
    var scored := ScoreEach(subs, master, revealedThroughRound);
    SortDescProperties(scored, 0);
    var sorted := SortDesc(scored);
    ranked := AssignRanks(sorted);
  }

  /** Ranks start at 1, never decrease down the table, and equal totals share a rank. */
  lemma RankProperties(sorted: seq<Scored>, i: nat, j: nat)
    requires SortedDesc(sorted)
    requires i <= j < |sorted|
    ensures CountAbove(sorted, |sorted|, sorted[0].score.total) == 0
    ensures CountAbove(sorted, |sorted|, sorted[i].score.total) <= CountAbove(sorted, |sorted|, sorted[j].score.total)
    ensures sorted[i].score.total == sorted[j].score.total ==>
              CountAbove(sorted, |sorted|, sorted[i].score.total) == CountAbove(sorted, |sorted|, sorted[j].score.total)
    ensures CountAbove(sorted, |sorted|, sorted[j].score.total) <= j
  {
    CountAbovePrefix(sorted, |sorted|, sorted[0].score.total, 0);
    CountAboveMonotone(sorted, |sorted|, sorted[i].score.total, sorted[j].score.total);
    CountAboveIgnoresTail(sorted, |sorted|, j, sorted[j].score.total);
  }

  /** Entries from position j on whose totals do not exceed t add nothing to the count. */
  lemma {:induction false} CountAboveIgnoresTail(s: seq<Scored>, n: nat, j: nat, t: nat)
    requires j <= n <= |s|
    requires forall k :: j <= k < n ==> s[k].score.total <= t
    ensures CountAbove(s, n, t) == CountAbove(s, j, t)
  {
    if n > j {
      CountAboveIgnoresTail(s, n - 1, j, t);
    }
  }

  /** Two entries tied at 50 ahead of one at 40 rank 1, 1, 3. */
  lemma TiesShareRank(a: Scored, b: Scored, c: Scored)
    requires a.score.total == 50 && b.score.total == 50 && c.score.total == 40
    ensures var s := [a, b, c];
            1 + CountAbove(s, 3, a.score.total) == 1 && 1 + CountAbove(s, 3, b.score.total) == 1
            && 1 + CountAbove(s, 3, c.score.total) == 3
  {
    var s := [a, b, c];
    assert CountAbove(s, 1, 50) == 0 && CountAbove(s, 2, 50) == 0;
    assert CountAbove(s, 1, 40) == 1 && CountAbove(s, 2, 40) == 2;
  }
}
