/**
 * The read-only bracket view (src/components/bracket/BracketViewer.tsx):
 * the status of each pick against the revealed master bracket, the 63
 * resolved matchups, and their grouping into four regions plus the
 * cross-region rounds. The status rule agrees with the scoring rule.
 */
module BracketViewer {
  import opened Wrappers
  import opened Constants
  import opened MatchupKeys
  import opened BracketUtils
  import opened Scoring

  datatype PickStatus = Correct | Incorrect | Pending

  /** The master bracket row: the official picks and the last revealed round. */
  datatype MasterBracket = MasterBracket(picks: Picks, revealedThrough: int)

  // ---------------------------------------------------------------------------
  // getPickStatus
  // ---------------------------------------------------------------------------

  /**
   * `getPickStatus`: pending without a master bracket, for an unrevealed
   * round, without an official pick or without a participant winner (the
   * empty id counts as none); otherwise correct or incorrect by comparing ids.
   */
  function GetPickStatus(key: Key, round: nat, winnerId: Option<string>, master: Option<MasterBracket>): PickStatus
  {
    if master.None? || round > master.value.revealedThrough then Pending
    else if key !in master.value.picks || winnerId.None? || winnerId.value == "" then Pending
    else if winnerId.value == master.value.picks[key].winnerId then Correct
    else Incorrect
  }

  /** The three outcomes of GetPickStatus, each stated as an if-and-only-if. */
  lemma PickStatusCases(key: Key, round: nat, winnerId: Option<string>, master: Option<MasterBracket>)
    ensures master.None? ==> GetPickStatus(key, round, winnerId, master) == Pending
    ensures master.Some? && round > master.value.revealedThrough ==> GetPickStatus(key, round, winnerId, master) == Pending
    ensures master.Some? && key !in master.value.picks ==> GetPickStatus(key, round, winnerId, master) == Pending
    ensures winnerId.None? ==> GetPickStatus(key, round, winnerId, master) == Pending
    ensures GetPickStatus(key, round, winnerId, master) == Correct <==>
              master.Some? && round <= master.value.revealedThrough && key in master.value.picks
              && winnerId.Some? && winnerId.value != "" && winnerId.value == master.value.picks[key].winnerId
    ensures GetPickStatus(key, round, winnerId, master) == Incorrect <==>
              master.Some? && round <= master.value.revealedThrough && key in master.value.picks
              && winnerId.Some? && winnerId.value != "" && winnerId.value != master.value.picks[key].winnerId
  {
  }

  // ---------------------------------------------------------------------------
  // resolveMatchups
  // ---------------------------------------------------------------------------

  datatype ResolvedMatchup = ResolvedMatchup(
    key: Key,
    round: nat,
    matchupIndex: nat,
    artistA: Option<Artist>,
    artistB: Option<Artist>,
    winnerId: Option<string>,
    winnerArtist: Option<Artist>,
    commentary: Option<string>,
    status: PickStatus,
    region: Option<Region>)

  /** The artist with a (non-empty) winner id, if any. */
  function WinnerArtist(winnerId: Option<string>, artists: seq<Artist>): (r: Option<Artist>)
    ensures r.Some? ==> winnerId.Some? && winnerId.value != "" && r.value in artists && r.value.id == winnerId.value
    ensures r.Some? ==> exists j :: 0 <= j < |artists| && artists[j] == r.value
                          && forall i :: 0 <= i < j ==> artists[i].id != winnerId.value
    ensures r.None? <==> winnerId.None? || winnerId.value == ""
                         || forall a :: a in artists ==> a.id != winnerId.value
  {
    if winnerId.Some? && winnerId.value != "" then Find(artists, (a: Artist) => a.id == winnerId.value) else None
  }

  /** The displayed data of one matchup. */
  function ResolveOne(picks: Picks, artists: seq<Artist>, master: Option<MasterBracket>, key: Key): ResolvedMatchup
  {
    var (artistA, artistB) := GetMatchupArtists(key.round, key.idx, picks, artists);
    var winnerId := if key in picks then Some(picks[key].winnerId) else None;
    ResolvedMatchup(
      key, key.round, key.idx, artistA, artistB, winnerId, WinnerArtist(winnerId, artists),
      if key in picks then picks[key].commentary else None,
      GetPickStatus(key, key.round, winnerId, master),
      RegionOf(key.round, key.idx))
  }

  /** All 63 matchups in round-then-index order. */
  function ResolvedAll(picks: Picks, artists: seq<Artist>, master: Option<MasterBracket>): (r: seq<ResolvedMatchup>)
    ensures |r| == TOTAL_PICKS
  {
    seq(TOTAL_PICKS, j requires 0 <= j < TOTAL_PICKS => ResolveOne(picks, artists, master, KeyAt(j)))
  }

  /** The body of the `resolveMatchups` inner loop: one matchup's entry. */
  method ResolveMatchup(picks: Picks, artists: seq<Artist>, master: Option<MasterBracket>, round: nat, i: nat)
    returns (m: ResolvedMatchup)
    ensures m == ResolveOne(picks, artists, master, Key(round, i))
  {
    var key := Key(round, i);
    var (artistA, artistB) := GetMatchupArtists(round, i, picks, artists);
    var winnerId := if key in picks then Some(picks[key].winnerId) else None;
    var winnerArtist := WinnerArtist(winnerId, artists);
    var status := GetPickStatus(key, round, winnerId, master);
    var region := GetRegionForMatchup(round, i);
    var commentary := if key in picks then picks[key].commentary else None;
    m := ResolvedMatchup(key, round, i, artistA, artistB, winnerId, winnerArtist, commentary, status, region);
  }

  /** `resolved` holds the entries of the first |resolved| keys in order. */
  predicate ResolvedPrefix(resolved: seq<ResolvedMatchup>, picks: Picks, artists: seq<Artist>, master: Option<MasterBracket>)
  {
    |resolved| <= TOTAL_PICKS && resolved == ResolvedAll(picks, artists, master)[..|resolved|]
  }

  lemma ResolvedPrefixExtend(resolved: seq<ResolvedMatchup>, picks: Picks, artists: seq<Artist>,
                             master: Option<MasterBracket>, m: ResolvedMatchup)
    requires ResolvedPrefix(resolved, picks, artists, master) && |resolved| < TOTAL_PICKS
    requires m == ResolveOne(picks, artists, master, KeyAt(|resolved|))
    ensures ResolvedPrefix(resolved + [m], picks, artists, master)
  {
    var all := ResolvedAll(picks, artists, master);
    assert m == all[|resolved|];
    SliceExtend(all, resolved, m);
  }

  /** A prefix of a sequence followed by the next element is the one-longer prefix. */
  lemma SliceExtend<T>(all: seq<T>, prefix: seq<T>, x: T)
    requires |prefix| < |all| && prefix == all[..|prefix|] && x == all[|prefix|]
    ensures prefix + [x] == all[..|prefix| + 1]
  {
    assert all[..|prefix| + 1] == all[..|prefix|] + [all[|prefix|]];
  }

  lemma ResolvedPrefixComplete(resolved: seq<ResolvedMatchup>, picks: Picks, artists: seq<Artist>,
                               master: Option<MasterBracket>)
    requires ResolvedPrefix(resolved, picks, artists, master) && |resolved| == TOTAL_PICKS
    ensures resolved == ResolvedAll(picks, artists, master)
  {
    var all := ResolvedAll(picks, artists, master);
    assert all[..|resolved|] == all;
  }

  /**
   * `resolveMatchups`: one entry per matchup, round by round and index by
   * index; the region is null exactly in rounds 5 and 6.
   */
  method ResolveMatchups(picks: Picks, artists: seq<Artist>, master: Option<MasterBracket>)
    returns (resolved: seq<ResolvedMatchup>)
    ensures resolved == ResolvedAll(picks, artists, master)
    ensures |resolved| == TOTAL_PICKS
    ensures forall j :: 0 <= j < |resolved| ==>
              resolved[j].key == KeyAt(j) && IsValidKey(resolved[j].key)
              && (resolved[j].region.None? <==> resolved[j].round >= 5)
  {
    resolved := [];
    for round := 1 to 7
      invariant |resolved| == RoundStart(round)
      invariant ResolvedPrefix(resolved, picks, artists, master)
    {
      var count := MatchupsInRound(round);
      KeyAtRound(round);
      RoundStartStep(round);
      for i := 0 to count
        invariant |resolved| == RoundStart(round) + i
        invariant ResolvedPrefix(resolved, picks, artists, master)
      {
        var m := ResolveMatchup(picks, artists, master, round, i);
        assert KeyAt(|resolved|) == Key(round, i);
        ResolvedPrefixExtend(resolved, picks, artists, master, m);
        resolved := resolved + [m];
      }
    }
    RoundStartValues();
    ResolvedPrefixComplete(resolved, picks, artists, master);
    ResolvedAllShape(picks, artists, master);
  }

  /** The resolved list walks the valid keys in order; only rounds 5 and 6 lack a region. */
  lemma ResolvedAllShape(picks: Picks, artists: seq<Artist>, master: Option<MasterBracket>)
    ensures var all := ResolvedAll(picks, artists, master);
            forall j :: 0 <= j < |all| ==>
              all[j].key == KeyAt(j) && IsValidKey(all[j].key)
              && (all[j].region.None? <==> all[j].round >= 5)
  {
    var all := ResolvedAll(picks, artists, master);
    forall j | 0 <= j < |all|
      ensures all[j].key == KeyAt(j) && IsValidKey(all[j].key) && (all[j].region.None? <==> all[j].round >= 5)
    {
      OrdinalBijection(KeyAt(j), KeyAt(j), j);
      RegionOfValidKey(KeyAt(j));
    }
  }

  // ---------------------------------------------------------------------------
  // Grouping
  // ---------------------------------------------------------------------------

  /** The ways the view selects matchups from the resolved list. */
  datatype Selector = RegionGroup(region: Region) | CrossRegion | CorrectInRound(round: nat)

  predicate Selects(sel: Selector, m: ResolvedMatchup)
  {
    match sel
    case RegionGroup(region) => m.region == Some(region) && m.round <= 4
    case CrossRegion => m.round >= 5
    case CorrectInRound(round) => m.round == round && m.status == Correct
  }

  /** The selected entries, in list order. */
  function Filter(s: seq<ResolvedMatchup>, sel: Selector): (r: seq<ResolvedMatchup>)
    ensures |r| <= |s|
    ensures forall m :: m in r ==> m in s && Selects(sel, m)
  {
    if s == [] then []
    else Filter(s[..|s| - 1], sel) + if Selects(sel, s[|s| - 1]) then [s[|s| - 1]] else []
  }

  /** No selected entry is dropped. */
  lemma {:induction false} FilterKeepsSelected(s: seq<ResolvedMatchup>, sel: Selector)
    ensures forall m :: m in s && Selects(sel, m) ==> m in Filter(s, sel)
  {
    if s != [] {
      var t := s[..|s| - 1];
      FilterKeepsSelected(t, sel);
      forall m | m in s && Selects(sel, m) ensures m in Filter(s, sel) {
        if m != s[|s| - 1] {
          var i :| 0 <= i < |s| && s[i] == m;
          assert t[i] == m;
        }
      }
    }
  }

  /** The last entry is kept after the others exactly when it is selected. */
  lemma FilterLast(s: seq<ResolvedMatchup>, sel: Selector)
    requires s != []
    ensures Filter(s, sel) == Filter(s[..|s| - 1], sel) + if Selects(sel, s[|s| - 1]) then [s[|s| - 1]] else []
  {
  }

  /** Filtering a concatenation filters each part and keeps them in order. */
  lemma {:induction false} FilterAppend(a: seq<ResolvedMatchup>, b: seq<ResolvedMatchup>, sel: Selector)
    ensures Filter(a + b, sel) == Filter(a, sel) + Filter(b, sel)
  {
    if b == [] {
      assert a + b == a;
    } else {
      var b', c, last := b[..|b| - 1], a + b, b[|b| - 1];
      var tail := if Selects(sel, last) then [last] else [];
      FilterAppend(a, b', sel);
      assert c[..|c| - 1] == a + b';
      assert c[|c| - 1] == last;
      FilterLast(c, sel);
      FilterLast(b, sel);
      assert (Filter(a, sel) + Filter(b', sel)) + tail == Filter(a, sel) + (Filter(b', sel) + tail);
    }
  }

  /** The keys of the selected entries. */
  function SelectedKeys(s: seq<ResolvedMatchup>, sel: Selector): set<Key>
  {
    set i | 0 <= i < |s| && Selects(sel, s[i]) :: s[i].key
  }

  /** Dropping the last entry removes at most its key from the selected keys. */
  lemma SelectedKeysStep(s: seq<ResolvedMatchup>, sel: Selector)
    requires s != []
    requires forall i, j :: 0 <= i < j < |s| ==> s[i].key != s[j].key
    ensures s[|s| - 1].key !in SelectedKeys(s[..|s| - 1], sel)
    ensures SelectedKeys(s, sel)
         == SelectedKeys(s[..|s| - 1], sel) + if Selects(sel, s[|s| - 1]) then {s[|s| - 1].key} else {}
  {
    var t := s[..|s| - 1];
    assert forall i :: 0 <= i < |t| ==> t[i] == s[i];
  }

  /** With distinct keys, a selection has as many entries as it has keys. */
  lemma {:induction false} FilterCount(s: seq<ResolvedMatchup>, sel: Selector)
    requires forall i, j :: 0 <= i < j < |s| ==> s[i].key != s[j].key
    ensures |Filter(s, sel)| == |SelectedKeys(s, sel)|
  {
    if s != [] {
      var t := s[..|s| - 1];
      assert forall i, j :: 0 <= i < j < |t| ==> t[i].key != t[j].key by {
        assert forall i :: 0 <= i < |t| ==> t[i] == s[i];
      }
      FilterCount(t, sel);
      SelectedKeysStep(s, sel);
    }
  }

  /**
   * The `regionMatchups` loop: each region's list receives, in order, the
   * entries of rounds 1..4 tagged with that region.
   */
  method GroupByRegion(all: seq<ResolvedMatchup>) returns (groups: map<Region, seq<ResolvedMatchup>>)
    ensures forall r: Region :: r in groups && groups[r] == Filter(all, RegionGroup(r))
  {
    groups := map[Vocalists := [], Bandleaders := [], Composers := [], Soloists := []];
    assert forall r: Region :: r in groups by {
      forall r: Region ensures r in groups {
        match r
        case Vocalists =>
        case Bandleaders =>
        case Composers =>
        case Soloists =>
      }
    }
    for i := 0 to |all|
      invariant forall r: Region :: r in groups && groups[r] == Filter(all[..i], RegionGroup(r))
    {
      assert all[..i + 1][..i] == all[..i];
      var m := all[i];
      if m.region.Some? && m.round <= 4 {
        groups := groups[m.region.value := groups[m.region.value] + [m]];
      }
    }
    assert all[..|all|] == all;
  }

  /** `crossRegionMatchups`: the entries of rounds 5 and 6. */
  function CrossRegionMatchups(all: seq<ResolvedMatchup>): seq<ResolvedMatchup>
  {
    Filter(all, CrossRegion)
  }

  lemma ResolvedKeysDistinct(picks: Picks, artists: seq<Artist>, master: Option<MasterBracket>)
    ensures var all := ResolvedAll(picks, artists, master);
            forall i, j :: 0 <= i < j < |all| ==> all[i].key != all[j].key
  {
    var all := ResolvedAll(picks, artists, master);
    forall i, j | 0 <= i < j < |all| ensures all[i].key != all[j].key {
      OrdinalBijection(KeyAt(i), KeyAt(j), i);
      OrdinalBijection(KeyAt(j), KeyAt(i), j);
    }
  }

  /** The entry of a valid key sits at its ordinal. */
  lemma ResolvedAt(picks: Picks, artists: seq<Artist>, master: Option<MasterBracket>, k: Key)
    requires IsValidKey(k)
    ensures Ordinal(k) < TOTAL_PICKS
    ensures ResolvedAll(picks, artists, master)[Ordinal(k)] == ResolveOne(picks, artists, master, k)
  {
    OrdinalBijection(k, k, 0);
  }

  /** What the grouping relies on in an entry for key k: its key, round, region and status. */
  predicate EntryFor(e: ResolvedMatchup, k: Key, picks: Picks, master: Option<MasterBracket>)
  {
    e.key == k && e.round == k.round && e.region == RegionOf(k.round, k.idx)
    && e.status == GetPickStatus(k, k.round, if k in picks then Some(picks[k].winnerId) else None, master)
  }

  /** A list whose entry j is, in those respects, the entry of the j-th key. */
  ghost predicate EntriesFor(all: seq<ResolvedMatchup>, picks: Picks, master: Option<MasterBracket>)
  {
    |all| == TOTAL_PICKS && forall j :: 0 <= j < |all| ==> EntryFor(all[j], KeyAt(j), picks, master)
  }

  lemma ResolvedEntries(picks: Picks, artists: seq<Artist>, master: Option<MasterBracket>)
    ensures EntriesFor(ResolvedAll(picks, artists, master), picks, master)
  {
  }

  /** The entry of a valid key in such a list sits at its ordinal. */
  lemma EntryAt(all: seq<ResolvedMatchup>, picks: Picks, master: Option<MasterBracket>, k: Key)
    requires EntriesFor(all, picks, master) && IsValidKey(k)
    ensures Ordinal(k) < |all| && EntryFor(all[Ordinal(k)], k, picks, master)
  {
    OrdinalBijection(k, k, 0);
  }

  /** The j-th entry of such a list has a valid key. */
  lemma EntryKey(all: seq<ResolvedMatchup>, picks: Picks, master: Option<MasterBracket>, j: nat)
    requires EntriesFor(all, picks, master) && j < |all|
    ensures EntryFor(all[j], KeyAt(j), picks, master) && IsValidKey(KeyAt(j))
  {
    OrdinalBijection(KeyAt(j), KeyAt(j), j);
  }

  lemma GroupKeysInRegion(all: seq<ResolvedMatchup>, picks: Picks, master: Option<MasterBracket>, region: Region)
    requires EntriesFor(all, picks, master)
    ensures SelectedKeys(all, RegionGroup(region)) <= RegionKeys(RegionIndex(region))
  {
    var ri := RegionIndex(region);
    forall k | k in SelectedKeys(all, RegionGroup(region)) ensures k in RegionKeys(ri) {
      var j :| 0 <= j < |all| && Selects(RegionGroup(region), all[j]) && all[j].key == k;
      EntryKey(all, picks, master, j);
      RegionKeysAreTheRegion(ri, k);
    }
  }

  lemma KeysInRegionGroup(all: seq<ResolvedMatchup>, picks: Picks, master: Option<MasterBracket>, region: Region)
    requires EntriesFor(all, picks, master)
    ensures RegionKeys(RegionIndex(region)) <= SelectedKeys(all, RegionGroup(region))
  {
    var ri := RegionIndex(region);
    RegionKeysValid(ri);
    forall k | k in RegionKeys(ri) ensures k in SelectedKeys(all, RegionGroup(region)) {
      RegionKeysAreTheRegion(ri, k);
      EntryAt(all, picks, master, k);
      assert Selects(RegionGroup(region), all[Ordinal(k)]);
    }
  }

  /** Every key in a region's group belongs to the region. */
  lemma RegionGroupKeysInRegion(picks: Picks, artists: seq<Artist>, master: Option<MasterBracket>, region: Region)
    ensures SelectedKeys(ResolvedAll(picks, artists, master), RegionGroup(region)) <= RegionKeys(RegionIndex(region))
  {
    ResolvedEntries(picks, artists, master);
    GroupKeysInRegion(ResolvedAll(picks, artists, master), picks, master, region);
  }

  /** Every key of the region appears in the region's group. */
  lemma RegionKeysInRegionGroup(picks: Picks, artists: seq<Artist>, master: Option<MasterBracket>, region: Region)
    ensures RegionKeys(RegionIndex(region)) <= SelectedKeys(ResolvedAll(picks, artists, master), RegionGroup(region))
  {
    ResolvedEntries(picks, artists, master);
    KeysInRegionGroup(ResolvedAll(picks, artists, master), picks, master, region);
  }

  /** Each region's group receives 15 matchups (8 + 4 + 2 + 1). */
  lemma RegionGroupsHold15(picks: Picks, artists: seq<Artist>, master: Option<MasterBracket>, region: Region)
    ensures |Filter(ResolvedAll(picks, artists, master), RegionGroup(region))| == 15
  {
    var all := ResolvedAll(picks, artists, master);
    var keys := SelectedKeys(all, RegionGroup(region));
    ResolvedKeysDistinct(picks, artists, master);
    FilterCount(all, RegionGroup(region));
    RegionGroupKeysInRegion(picks, artists, master, region);
    RegionKeysInRegionGroup(picks, artists, master, region);
    assert keys == RegionKeys(RegionIndex(region));
    RegionKeysCard(RegionIndex(region));
    assert |keys| == 15;
  }

  /** The late rounds' entries are exactly those of the keys of rounds 5 and 6. */
  lemma CrossKeys(all: seq<ResolvedMatchup>, picks: Picks, master: Option<MasterBracket>)
    requires EntriesFor(all, picks, master)
    ensures SelectedKeys(all, CrossRegion) == Block(5, 0, 2) + Block(6, 0, 1)
  {
    var late := Block(5, 0, 2) + Block(6, 0, 1);
    forall k | k in SelectedKeys(all, CrossRegion) ensures k in late {
      var j :| 0 <= j < |all| && Selects(CrossRegion, all[j]) && all[j].key == k;
      EntryKey(all, picks, master, j);
    }
    forall k | k in late ensures k in SelectedKeys(all, CrossRegion) {
      EntryAt(all, picks, master, k);
      assert Selects(CrossRegion, all[Ordinal(k)]);
    }
  }

  /** The cross-region list holds the 3 matchups of rounds 5 and 6. */
  lemma CrossRegionHolds3(picks: Picks, artists: seq<Artist>, master: Option<MasterBracket>)
    ensures |CrossRegionMatchups(ResolvedAll(picks, artists, master))| == 3
  {
    var all := ResolvedAll(picks, artists, master);
    ResolvedKeysDistinct(picks, artists, master);
    FilterCount(all, CrossRegion);
    ResolvedEntries(picks, artists, master);
    CrossKeys(all, picks, master);
    BlockCard(5, 0, 2);
    BlockCard(6, 0, 1);
    BlocksOfDifferentRounds(5, 0, 2, 6, 0, 1);
    DisjointUnionCard(Block(5, 0, 2), Block(6, 0, 1));
  }

  /**
   * The view agrees with the score: for a revealed round, when every master
   * key is valid and every master winner id is non-empty, the number of
   * 'correct' entries of the round times the round's points is the round's
   * score.
   */
  lemma CorrectCountMatchesScore(picks: Picks, artists: seq<Artist>, master: MasterBracket, round: nat)
    requires 1 <= round <= 6 && round <= master.revealedThrough
    requires AllKeysValid(master.picks)
    requires forall k :: k in master.picks ==> master.picks[k].winnerId != ""
    ensures |Filter(ResolvedAll(picks, artists, Some(master)), CorrectInRound(round))| * RoundPoints(round)
         == ScoreOf(picks, master.picks, master.revealedThrough).byRound[round]
  {
    var all := ResolvedAll(picks, artists, Some(master));
    ResolvedKeysDistinct(picks, artists, Some(master));
    FilterCount(all, CorrectInRound(round));
    ResolvedEntries(picks, artists, Some(master));
    CorrectKeys(all, picks, master, round);
  }

  /** In a revealed round, the keys of the 'correct' entries are the scoring hits. */
  lemma CorrectKeys(all: seq<ResolvedMatchup>, picks: Picks, master: MasterBracket, round: nat)
    requires EntriesFor(all, picks, Some(master))
    requires 1 <= round <= 6 && round <= master.revealedThrough
    requires AllKeysValid(master.picks)
    requires forall k :: k in master.picks ==> master.picks[k].winnerId != ""
    ensures SelectedKeys(all, CorrectInRound(round)) == Hits(picks, master.picks, round)
  {
    var sel := CorrectInRound(round);
    forall k | k in SelectedKeys(all, sel) ensures k in Hits(picks, master.picks, round) {
      var j :| 0 <= j < |all| && Selects(sel, all[j]) && all[j].key == k;
      EntryKey(all, picks, Some(master), j);
      assert IsHit(picks, master.picks, round, k);
    }
    forall k | k in Hits(picks, master.picks, round) ensures k in SelectedKeys(all, sel) {
      EntryAt(all, picks, Some(master), k);
      assert Selects(sel, all[Ordinal(k)]);
    }
  }
}
