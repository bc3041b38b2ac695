/**
 * The irreversible round reveal (`POST` in src/app/api/admin/reveal/route.ts).
 * The master-bracket rows are a map from tournament id to the round revealed
 * through; a request is validated in the route's order and, when accepted,
 * raises that tournament's value to the requested round.
 */
module RevealRoute {
  import opened Wrappers

  /** The request body: both fields may be absent. */
  datatype RevealRequest = RevealRequest(tournamentId: Option<string>, round: Option<int>)

  /** Why a reveal is refused; each reason carries the route's HTTP status. */
  datatype RevealError =
    | Unauthorized
    | MissingTournament
    | InvalidRound
    | NoMasterBracket
    | AlreadyRevealed(round: int, revealedThrough: int)

  function StatusCode(e: RevealError): (code: nat)
    ensures code == 400 <==> e.MissingTournament? || e.InvalidRound? || e.AlreadyRevealed?
    ensures code == 401 <==> e.Unauthorized?
    ensures code == 404 <==> e.NoMasterBracket?
  {
    match e
    case Unauthorized => 401
    case MissingTournament => 400
    case InvalidRound => 400
    case NoMasterBracket => 404
    case AlreadyRevealed(_, _) => 400
  }

  /** `revealed_through` per tournament that has a master bracket. */
  type Brackets = map<string, int>

  /**
   * The route's decision: the checks in order (authentication, tournament id,
   * round range, bracket lookup, irreversibility), giving the accepted
   * tournament and round. An empty id is falsy and counts as missing.
   */
  function Decide(authenticated: bool, req: RevealRequest, brackets: Brackets): Result<(string, int), RevealError>
  {
    if !authenticated then Err(Unauthorized)
    else if req.tournamentId.None? || req.tournamentId.value == "" then Err(MissingTournament)
    else if req.round.None? || req.round.value < 1 || req.round.value > 6 then Err(InvalidRound)
    else if req.tournamentId.value !in brackets then Err(NoMasterBracket)
    else if req.round.value <= brackets[req.tournamentId.value] then
      Err(AlreadyRevealed(req.round.value, brackets[req.tournamentId.value]))
    else Ok((req.tournamentId.value, req.round.value))
  }

  /** The rows after one request: the accepted round is written, otherwise nothing changes. */
  function Step(brackets: Brackets, authenticated: bool, req: RevealRequest): Brackets
  {
    match Decide(authenticated, req, brackets)
    case Ok((tid, round)) => brackets[tid := round]
    case Err(_) => brackets
  }

  /**
   * What the route accepts and rejects: a missing tournament id is refused
   * whatever the rows hold (nothing is read first); a round outside 1..6 or
   * not above the current value is refused; an accepted request names a
   * tournament with a bracket and a round in 1..6 above its current value.
   */
  lemma DecideCases(authenticated: bool, req: RevealRequest, brackets: Brackets, other: Brackets)
    ensures authenticated && (req.tournamentId.None? || req.tournamentId.value == "") ==>
              Decide(authenticated, req, brackets) == Decide(authenticated, req, other) == Err(MissingTournament)
    ensures authenticated && req.tournamentId.Some? && req.tournamentId.value != ""
            && (req.round.None? || req.round.value < 1 || req.round.value > 6) ==>
              Decide(authenticated, req, brackets) == Err(InvalidRound)
    ensures (req.tournamentId.Some? && req.tournamentId.value in brackets && req.round.Some?
             && req.round.value <= brackets[req.tournamentId.value]) ==> Decide(authenticated, req, brackets).Err?
    ensures Decide(authenticated, req, brackets).Ok? <==>
              authenticated && req.tournamentId.Some? && req.tournamentId.value in brackets
              && req.tournamentId.value != "" && req.round.Some? && 1 <= req.round.value <= 6
              && req.round.value > brackets[req.tournamentId.value]
    ensures Decide(authenticated, req, brackets).Ok? ==>
              Decide(authenticated, req, brackets).value == (req.tournamentId.value, req.round.value)
  {
  }

  /** Every stored value lies in 0..6. */
  predicate InRange(brackets: Brackets)
  {
    forall t :: t in brackets ==> 0 <= brackets[t] <= 6
  }

  /**
   * One request keeps the values in 0..6, adds no tournament, and changes at
   * most the requested tournament's value, which then strictly increases.
   */
  lemma StepIsMonotone(brackets: Brackets, authenticated: bool, req: RevealRequest)
    requires InRange(brackets)
    ensures var next := Step(brackets, authenticated, req);
            InRange(next) && next.Keys == brackets.Keys
            && forall t :: t in brackets ==>
                 (brackets[t] <= next[t]
                  && (brackets[t] < next[t] ==> Decide(authenticated, req, brackets) == Ok((t, next[t]))))
  {
  }

  /** The rows after a sequence of requests, applied in order. */
  function Run(brackets: Brackets, requests: seq<(bool, RevealRequest)>): Brackets
    decreases |requests|
  {
    if requests == [] then brackets
    else Run(Step(brackets, requests[0].0, requests[0].1), requests[1..])
  }

  /**
   * Across any sequence of calls the values stay in 0..6 and never decrease:
   * a revealed round cannot be taken back.
   */
  lemma {:induction false} RunIsMonotone(brackets: Brackets, requests: seq<(bool, RevealRequest)>)
    requires InRange(brackets)
    ensures var last := Run(brackets, requests);
            InRange(last) && last.Keys == brackets.Keys
            && forall t :: t in brackets ==> brackets[t] <= last[t]
    decreases |requests|
  {
    if requests != [] {
      StepIsMonotone(brackets, requests[0].0, requests[0].1);
      RunIsMonotone(Step(brackets, requests[0].0, requests[0].1), requests[1..]);
    }
  }

  /** Rounds may be skipped: revealing round 6 straight after round 0 is accepted. */
  lemma SkippingRoundsIsAllowed(tid: string)
    requires tid != ""
    ensures Step(map[tid := 0], true, RevealRequest(Some(tid), Some(6))) == map[tid := 6]
  {
  }

  /** The master-bracket rows the route reads and writes. */
  class RevealStore {
    var brackets: Brackets

    constructor(initial: Brackets)
      ensures brackets == initial
    {
      brackets := initial;
    }

    /** `POST`: validate, then write `revealed_through` for the accepted request. */
    method Reveal(authenticated: bool, req: RevealRequest) returns (res: Result<int, RevealError>)
      modifies this
      ensures brackets == Step(old(brackets), authenticated, req)
      ensures res.Ok? <==> Decide(authenticated, req, old(brackets)).Ok?
      ensures res.Ok? ==> res.value == req.round.value
      ensures res.Err? ==> res.error == Decide(authenticated, req, old(brackets)).error
    {
      if !authenticated {
        return Err(Unauthorized);
      }
      if req.tournamentId.None? || req.tournamentId.value == "" {
        return Err(MissingTournament);
      }
      var tid := req.tournamentId.value;
      if req.round.None? || req.round.value < 1 || req.round.value > 6 {
        return Err(InvalidRound);
      }
      var round := req.round.value;
      if tid !in brackets {
        return Err(NoMasterBracket);
      }
      var revealedThrough := brackets[tid];
      if round <= revealedThrough {
        return Err(AlreadyRevealed(round, revealedThrough));
      }
      brackets := brackets[tid := round];
      return Ok(round);
    }
  }
}
