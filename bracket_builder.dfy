/**
 * The pick-editing transitions of the participant's bracket builder
 * (src/components/bracket/BracketBuilder.tsx): choosing a winner, editing
 * commentary, and the drag-and-drop rule that turns a drop into a pick.
 *
 * The React state `picks` is the field of a class; each handler is a method
 * whose new state is given by a pure function, and the properties the
 * component relies on are lemmas about those functions.
 */
module BracketBuilder {
  import opened Wrappers
  import opened MatchupKeys
  import opened BracketUtils

  // ---------------------------------------------------------------------------
  // handlePickWinner
  // ---------------------------------------------------------------------------

  /** The previous winner at a key, or None when the key holds no pick. */
  function PreviousWinner(picks: Picks, key: Key): (r: Option<string>)
    ensures r.Some? <==> key in picks
    ensures r.Some? ==> r.value == picks[key].winnerId
  {
    if key in picks then Some(picks[key].winnerId) else None
  }

  /**
   * The picks after `handlePickWinner(key, winnerId)`: unchanged when the
   * same winner is already recorded; otherwise the cascade for the old
   * winner followed by writing the new winner, with the commentary the key
   * already had.
   */
  function PickWinner(picks: Picks, key: Key, winnerId: string): Picks
  {
    if key in picks && picks[key].winnerId == winnerId then picks
    else
      var commentary := if key in picks then picks[key].commentary else None;
      Cascaded(picks, key.round, key.idx, PreviousWinner(picks, key))[key := Pick(winnerId, commentary)]
  }

  /** Picking the winner already recorded changes nothing. */
  lemma PickSameWinnerIsNoop(picks: Picks, key: Key)
    requires key in picks
    ensures PickWinner(picks, key, picks[key].winnerId) == picks
  {
  }

  /**
   * After a pick the key holds the new winner and carries over the
   * commentary it had (none if it had no pick).
   */
  lemma PickWinnerRecordsWinner(picks: Picks, key: Key, winnerId: string)
    ensures key in PickWinner(picks, key, winnerId)
    ensures PickWinner(picks, key, winnerId)[key].winnerId == winnerId
    ensures PickWinner(picks, key, winnerId)[key].commentary
         == if key in picks then picks[key].commentary else None
  {
  }

  /**
   * Every other key is either unchanged or was removed by the cascade: it
   * lies on the ancestor chain of the key and held the previous winner.
   * Nothing is added.
   */
  lemma PickWinnerOtherKeys(picks: Picks, key: Key, winnerId: string, k: Key)
    requires k != key
    ensures k in PickWinner(picks, key, winnerId) ==> k in picks && PickWinner(picks, key, winnerId)[k] == picks[k]
    ensures k in picks && k !in PickWinner(picks, key, winnerId) ==>
              key in picks && picks[key].winnerId != winnerId && picks[key].winnerId != ""
              && OnChain(k, key.round, key.idx) && picks[k].winnerId == picks[key].winnerId
  {
  }

  /** When the key had no pick, the only change is the new entry. */
  lemma PickWinnerOnEmptyKey(picks: Picks, key: Key, winnerId: string)
    requires key !in picks
    ensures PickWinner(picks, key, winnerId) == picks[key := Pick(winnerId, None)]
  {
  }

  /** Picks on valid keys keep every key valid. */
  lemma PickWinnerKeepsKeysValid(picks: Picks, key: Key, winnerId: string)
    requires AllKeysValid(picks) && IsValidKey(key)
    ensures AllKeysValid(PickWinner(picks, key, winnerId))
  {
  }

  // ---------------------------------------------------------------------------
  // handleCommentaryChange
  // ---------------------------------------------------------------------------

  /** The picks after `handleCommentaryChange(key, value)`. */
  function CommentaryChanged(picks: Picks, key: Key, value: string): Picks
  {
    if key !in picks then picks else picks[key := picks[key].(commentary := Some(value))]
  }

  /**
   * Without a pick at the key nothing changes; otherwise only that pick's
   * commentary changes and its winner stays.
   */
  lemma CommentaryChangeOnlyTouchesCommentary(picks: Picks, key: Key, value: string)
    ensures key !in picks ==> CommentaryChanged(picks, key, value) == picks
    ensures CommentaryChanged(picks, key, value).Keys == picks.Keys
    ensures key in picks ==>
              CommentaryChanged(picks, key, value)[key] == Pick(picks[key].winnerId, Some(value))
    ensures forall k :: k in picks && k != key ==> CommentaryChanged(picks, key, value)[k] == picks[k]
  {
  }

  // ---------------------------------------------------------------------------
  // handleDragEnd
  // ---------------------------------------------------------------------------

  /** The droppable under the pointer; its data may lack a matchup key. */
  datatype DropTarget = DropTarget(matchupKey: Option<Key>)

  /** What a drag-end event carries: the target, and the dragged artist's id and matchup. */
  datatype DragEndEvent = DragEndEvent(over: Option<DropTarget>, artistId: Option<string>, sourceKey: Option<Key>)

  /**
   * The drop rule: a drop picks the dragged artist in its own matchup when it
   * lands on that matchup or on the matchup the winner advances to; missing
   * data (an empty artist id counts as missing) or any other target does
   * nothing. The result is the (matchup, winner) pick to make.
   */
  function DropPick(e: DragEndEvent): Option<(Key, string)>
  {
    if e.over.None? || e.over.value.matchupKey.None? || e.artistId.None? || e.artistId.value == ""
       || e.sourceKey.None?
    then None
    else
      var target, source := e.over.value.matchupKey.value, e.sourceKey.value;
      if target == source then Some((source, e.artistId.value))
      else if Some(target) == GetChildMatchupKey(source.round, source.idx) then Some((source, e.artistId.value))
      else None
  }

  /**
   * A drop on a valid matchup of round r picks the dragged artist in the
   * source matchup exactly when the target is the source or, for r < 6, the
   * source's child (r + 1, idx / 2); every other target, and any missing
   * data, changes nothing.
   */
  lemma DropRule(target: Key, source: Key, artistId: string)
    ensures var e := DragEndEvent(Some(DropTarget(Some(target))), Some(artistId), Some(source));
            DropPick(e).Some? <==>
              artistId != "" && (target == source || (source.round < 6 && target == Key(source.round + 1, source.idx / 2)))
    ensures var e := DragEndEvent(Some(DropTarget(Some(target))), Some(artistId), Some(source));
            DropPick(e).Some? ==> DropPick(e).value == (source, artistId)
    ensures DropPick(DragEndEvent(None, Some(artistId), Some(source))).None?
    ensures DropPick(DragEndEvent(Some(DropTarget(None)), Some(artistId), Some(source))).None?
    ensures DropPick(DragEndEvent(Some(DropTarget(Some(target))), None, Some(source))).None?
    ensures DropPick(DragEndEvent(Some(DropTarget(Some(target))), Some(artistId), None)).None?
  {
  }

  // ---------------------------------------------------------------------------
  // The component state
  // ---------------------------------------------------------------------------

  /** The bracket builder's `picks` state and the handlers that replace it. */
  class BracketBuilderState {
    var picks: Picks

    /** The builder starts with no picks. */
    constructor()
      ensures picks == map[]
    {
      picks := map[];
    }

    /** `handlePickWinner`: skip a repeated pick, cascade, then write the new pick. */
    method HandlePickWinner(key: Key, winnerId: string)
      modifies this
      ensures picks == PickWinner(old(picks), key, winnerId)
    {
      var existing := if key in picks then Some(picks[key]) else None;
      if existing.Some? && existing.value.winnerId == winnerId {
        return;
      }
      var previousWinnerId := if existing.Some? then Some(existing.value.winnerId) else None;
      var updatedPicks, _ := CascadePicks(picks, key.round, key.idx, previousWinnerId);
      var commentary := if existing.Some? then existing.value.commentary else None;
      updatedPicks := updatedPicks[key := Pick(winnerId, commentary)];
      picks := updatedPicks;
    }

    /** `handleCommentaryChange`: replace the commentary of an existing pick. */
    method HandleCommentaryChange(key: Key, value: string)
      modifies this
      ensures picks == CommentaryChanged(old(picks), key, value)
    {
      if key !in picks {
        return;
      }
      var existing := picks[key];
      picks := picks[key := existing.(commentary := Some(value))];
    }

    /** `handleDragEnd`: apply the drop rule, then pick through `HandlePickWinner`. */
    method HandleDragEnd(e: DragEndEvent)
      modifies this
      ensures picks == if DropPick(e).Some? then PickWinner(old(picks), DropPick(e).value.0, DropPick(e).value.1)
                       else old(picks)
    {
      if e.over.None? {
        return;
      }
      var targetKey := e.over.value.matchupKey;
      var artistId := e.artistId;
      var sourceKey := e.sourceKey;
      if targetKey.None? || artistId.None? || artistId.value == "" || sourceKey.None? {
        return;
      }
      if targetKey.value == sourceKey.value {
        HandlePickWinner(sourceKey.value, artistId.value);
        return;
      }
      var childKey := GetChildMatchupKey(sourceKey.value.round, sourceKey.value.idx);
      if Some(targetKey.value) == childKey {
        HandlePickWinner(sourceKey.value, artistId.value);
      }
    }
  }
}
