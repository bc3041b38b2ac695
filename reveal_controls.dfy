/**
 * The admin reveal panel's classification of rounds
 * (`getRoundState` and the progress label in
 * src/components/admin/RevealControls.tsx).
 */
module RevealControls {

  datatype RoundState = Revealed | Next | Future

  /** `getRoundState`: revealed up to the cutoff, next just after it, future beyond. */
  function GetRoundState(round: int, revealedThrough: int): RoundState
  {
    if round <= revealedThrough then Revealed
    else if round == revealedThrough + 1 then Next
    else Future
  }

  /** Each state, as an if-and-only-if on the round. */
  lemma RoundStateCases(round: int, revealedThrough: int)
    ensures GetRoundState(round, revealedThrough) == Revealed <==> round <= revealedThrough
    ensures GetRoundState(round, revealedThrough) == Next <==> round == revealedThrough + 1
    ensures GetRoundState(round, revealedThrough) == Future <==> round > revealedThrough + 1
  {
  }

  /** The rounds of 1..6 shown as 'next'. */
  function NextRounds(revealedThrough: int): (s: set<int>)
    ensures s == if 0 <= revealedThrough <= 5 then {revealedThrough + 1} else {}
  {
    var s := set r | 1 <= r <= 6 && GetRoundState(r, revealedThrough) == Next;
    assert 0 <= revealedThrough <= 5 ==> revealedThrough + 1 in s;
    s
  }

  /**
   * With 0..5 rounds revealed exactly one button is 'next' (the round after
   * the cutoff); with all six revealed none is.
   */
  lemma ExactlyOneNext(revealedThrough: int)
    requires 0 <= revealedThrough <= 6
    ensures revealedThrough < 6 ==> NextRounds(revealedThrough) == {revealedThrough + 1}
    ensures revealedThrough == 6 ==> NextRounds(revealedThrough) == {}
  {
    if revealedThrough < 6 {
      assert revealedThrough + 1 in NextRounds(revealedThrough);
    }
  }

  /** The right-hand progress label. */
  datatype ProgressLabel = TournamentComplete | NextRound(round: int)

  function Progress(revealedThrough: int): (l: ProgressLabel)
    ensures l == TournamentComplete <==> revealedThrough == 6
    ensures l.NextRound? ==> l.round == revealedThrough + 1
  {
    if revealedThrough == 6 then TournamentComplete else NextRound(revealedThrough + 1)
  }

  /** The label names the round the panel marks 'next', or says the tournament is complete. */
  lemma ProgressNamesTheNextRound(revealedThrough: int)
    requires 0 <= revealedThrough <= 6
    ensures Progress(revealedThrough).NextRound? <==> NextRounds(revealedThrough) != {}
    ensures Progress(revealedThrough).NextRound? ==> NextRounds(revealedThrough) == {Progress(revealedThrough).round}
  {
    ExactlyOneNext(revealedThrough);
  }
}
